# Nachos in Dafny

A model of the Nachos instructional kernel, with proofs of the properties its parts exist for: the thread and
semaphore kernel, locks and Mesa monitors, the disk file system, the simulated clock and devices, the mail network,
the machine's multiply and unaligned accesses, and three self-contained algorithms.  `dafny verify dfyconfig.toml`
checks everything.

## How it is organised

- **Threads and semaphores.** `Kernel` is a transition system over any number of threads, semaphores and interrupt
  handlers; one event is what the source does between two points where simulated time can advance, so P is split at
  the switch inside its loop and a sleeping thread can be woken by a handler while it idles and then switch to itself.
  A failing ASSERT is an outcome of a step.  `KernelProofs` shows one global invariant kept by every event,
  `KernelTheorems` draws the conclusions for every run from boot, `KernelHistory` says what the events of a run came to
  (who was started, who finished, what each call of P took, in what order sleepers were woken), and `Threads` has the
  routines as an object, with the linked list of `Lists` for its ready list, whose methods are proved to be exactly the
  events.
- **Locks and monitors.** `Locks` and `Monitor` run Lock, Condition and SynchList statement by statement, with a
  preemption possible after every statement (more than the simulator allows), over indivisible semaphores; that
  kernel semaphores behave like those, over whole runs, is `KernelTheorems.RunRefinesTextbook`.  `MonitorHistory` ties
  the list to the calls made: every call does its own work on the list, in order, and no other.
- **Programs on the kernel.** `Hosting` says what the kernel does to any program that uses its semaphores;
  `MonitorOnKernel` and `DeviceOnKernel` run the synchronized list and the device protocol on `Kernel`, where every P,
  V, new semaphore and completion interrupt is a kernel event, and show that neither can deadlock; `HostedCalls` is the
  account of the calls there.
- **Clock.** `Clock` is the interrupt hardware.  Its invariant speaks about the whole run: everything scheduled has
  fired or is pending, exactly once; what fired did so in order of time and, on ties, of scheduling; nothing early;
  total ticks = idle + system + user ticks; everything scheduled was asked for by a call of Schedule or by the handler
  of an interrupt that fired.  Between calls nothing is due, so nothing fires as much as a tick late.  Handlers are a
  parameter.
- **File system.** `Bytes`, `Bitmaps`, `DiskImage`, `OpenFiles`, `FileHeaders` and `Directories` are the layers,
  `FileSystemSpec` states who owns which sector and what Create and Remove do to the disk, `FileSystemProofs` proves
  the ownership invariant over whole runs, and `FileSystems` has format, Create, Open and Remove, reading and writing
  their own bitmap and directory files on the same disk.  `FileSystemHandles` says which open handles can do harm and
  whom they reach; `StaleHandles` has the run in which one does.
- **Devices and network.** `Device` is the lock-and-semaphore protocol around a one-request-at-a-time device, shared
  by SynchDisk (`SynchDisks`) and the outgoing side of the post office (`Posting`); `DiskLatency` and `Disks` are the
  disk's timing; `Wire`, `PostOffice` and `PostOffices` are the receiving side, down to the bytes on the wire, and
  `Networks` puts any number of sending machines and a receiving one together.  What one access does to the disk is
  defined once, as `DiskImage.Serve`, for the file system, the protocol and the timing.
- **Machine.** `Multiply`, `MipsMemory`, `Unaligned` and `Machines`: MULT and MULTU, address translation, and LWL, LWR,
  SWL and SWR through the load-delay slot, in the SIM_FIX variant.  `Restarts` is about running an instruction again
  after a page fault, `PageBits` about what the use and dirty bits tell.  The model computes with integers; `WordMasks`
  shows that this is what the source's masks and shifts do to 32-bit words.
- **Algorithms.** `Lists` (linked nodes), `HashTables`, `Numbers` with `Decimals`, and `BubbleSorts`.

## Where a promise does not hold as stated

- An open file keeps the header it was opened with, and Remove does not look for open files.  A write through a handle
  whose file is gone can therefore destroy another file, or the header of one (`StaleHandles.WriteThroughStaleHandle`).
  A handle can do no damage to the ownership of sectors if and only if its sectors are neither the system's nor a
  listed file's header (`FileSystemHandles.HarmlessExactly`), and none to a file if and only if that file owns none of
  its sectors (`FileSystemHandles.AvoidsExactly`); both hold as long as its own file is not removed
  (`FileSystemHandles.HandleStaysCurrent`, `FileSystemHandles.CurrentAvoidsOthers`).
- A track-buffer hit is decided for the next sector boundary, not for the moment of the request: at the request the
  sector may still be passing under the head (`DiskLatency.HitTooEarly`).  `DiskLatency.HitMeans` gives the exact
  condition and `DiskLatency.HitAtRequest` says exactly which hits come too early.
- `checkNumString` can look in front of its string (`Numbers.OverrunExample`), exactly for proper suffixes of a
  positive number's digits (`Numbers.CheckNumString`); the system call never passes one (`Numbers.NeverOverruns`).
- Reading does not invert printing for -2147483647..-1000000000: their notation has eleven characters, which SysReadNum
  refuses (`Numbers.RoundTrip`).
- The sender does not check that the receiving machine has the mailbox; the receiving machine's ASSERT then fails
  (`PostOffice.MissingBoxFails`).  It fails in no other case (`PostOffice.FailsOnlyOnWrongBox`), and in no run in which
  all messages are addressed to mailboxes that exist (`PostOffice.NoRunFails`).
- SynchList passes a duplicate item to List::Append, whose ASSERT refuses it (`MonitorTheorems.DuplicateFails`).  No
  other ASSERT can fail (`MonitorTheorems.AssertFailsOnlyOnDuplicate`), and none does while the items appended are
  different (`MonitorTheorems.NoScheduleFails`).
- An instruction that faults is not always restartable: if a load into its base register is still pending, the trap
  finishes that load, and the instruction then finds another address.  `Restarts.SameTarget` gives the exact condition;
  when it holds, and for a store also for the stored register, running the instruction again after the repair is
  what running it on the repaired table would have been (`Restarts.LoadsAgain`, `Restarts.StoresAgain`).
- NetworkOutput never sets `sendBusy`, so its ASSERT cannot fail in the source; `Device.NoOverlap` shows that it would
  not fail either if the flag were kept.

## Model

| member | source | states |
|---|---|---|
| `KernelProofs.BootInv` | code/threads/kernel.cc:87-112 | the kernel as booted, one running thread and nothing else, satisfies the global invariant |
| `KernelProofs.StepKeeps` | code/threads/thread.cc:91-255 | every event (create, Fork, P, V, V from a handler, Yield, Finish, dispatch of the next thread, clean-up after a switch, re-test in P) keeps the global invariant and fails no ASSERT |
| `KernelProofs.RunKeeps` | code/threads/scheduler.cc:56-167 | the global invariant holds after every finite run of any number of threads and interrupt handlers |
| `KernelTheorems.ReachableInv` | code/threads/scheduler.cc:56-167 | every state reachable from boot satisfies the global invariant |
| `KernelTheorems.NoAssertFails` | code/threads/scheduler.cc:103-150 | in every reachable state no event fails an ASSERT of the scheduler, of thread deletion or of a list |
| `KernelTheorems.OnePlace` | code/threads/scheduler.cc:56-84 | no thread is ever twice in the ready list or a semaphore queue, or in two of them |
| `KernelTheorems.DestroyedOnce` | code/threads/thread.cc:171-181 | toBeDestroyed is empty whenever a thread can finish; a finished thread is deleted at most once, by another thread, and is gone afterwards |
| `KernelTheorems.SemaphoreSafety` | code/threads/synch.cc:75-117 | value >= 0; value = initial + Vs - completed Ps; with a non-empty queue, value is at most the number of threads woken and not yet re-tested |
| `KernelTheorems.NoLostWakeup` | code/threads/synch.cc:102-117 | a positive value with threads still queued means a woken thread is ready or is the current thread on its way to the test |
| `KernelTheorems.RefinesTextbook` | code/threads/synch.cc:75-117 | every kernel step is a step of textbook semaphores: indivisible take, give, creation, or nothing |
| `KernelHistory.Population` | code/threads/thread.cc:91-181 | over every run from boot, the threads known are exactly those created, those started exactly those forked, and those ended exactly those that were running at a Finish |
| `KernelHistory.ForkQueues` | code/threads/thread.cc:91-106 | Fork makes its thread ready, last in the ready list, and touches no other thread, semaphore or the processor |
| `KernelHistory.ForkedRuns` | code/threads/thread.cc:91-106 | a forked thread has run once the threads ready before it, and one more, have been dispatched |
| `KernelHistory.CallsTake` | code/threads/synch.cc:75-94 | over every run from boot, each call of P by each thread has taken a unit exactly once, or is the one call the thread is still in |
| `KernelHistory.SleepersInOrder` | code/threads/synch.cc:75-117 | over every run from boot, the threads that went to sleep on a semaphore, in that order, are those its Vs have made ready, in that order, followed by those still queued |
| `KernelTheorems.RunRefinesTextbook` | code/threads/synch.cc:75-117 | the semaphore values of any whole run from boot, one per event, are a trace of textbook semaphores that begins with none and ends with the kernel's |
| `KernelTheorems.LeavesByTaking` | code/threads/synch.cc:75-92 | a thread leaves the loop of P only by taking a unit of that very semaphore |
| `KernelTheorems.SwitchTakesFront` | code/threads/scheduler.cc:74-84 | a switch runs the front of the ready list; every other event only appends to it |
| `KernelTheorems.Advances` | code/threads/scheduler.cc:56-84 | along any run a ready thread that has not run has moved up by one place per dispatch |
| `KernelTheorems.DispatchedWithin` | code/threads/scheduler.cc:56-84 | a thread with k threads ahead of it runs within k + 1 dispatches |
| `Threads.Nucleus.constructor` | code/threads/kernel.cc:87-112 | the object starts in the booted state |
| `Threads.Nucleus.ReadyToRun` | code/threads/scheduler.cc:56-64 | on the linked ready list, exactly the transition system's ReadyToRun |
| `Threads.Nucleus.FindNextToRun` | code/threads/scheduler.cc:74-84 | unlinks the front of the ready list, or takes nothing |
| `Threads.Nucleus.Run` | code/threads/scheduler.cc:103-150 | in place, exactly the transition system's switch |
| `Threads.Nucleus.CheckToBeDestroyed` | code/threads/scheduler.cc:160-167 | the finished thread leaves the system; toBeDestroyed is empty afterwards |
| `Threads.Nucleus.Fork` | code/threads/thread.cc:91-106 | in place, exactly the Fork event, of which KernelHistory.ForkQueues, ForkedRuns and Population say what it does |
| `Threads.Nucleus.Yield` | code/threads/thread.cc:201-217 | in place, exactly the Yield event |
| `Threads.Nucleus.V` | code/threads/synch.cc:102-117 | in place, exactly V, from a thread or a handler |
| `Threads.Nucleus.TestValue` | code/threads/synch.cc:75-92 | one test of P: a unit is taken, or the thread is queued and asleep |
| `Threads.Nucleus.Sleep` | code/threads/thread.cc:239-255 | the idle loop and the switch that ends it: exactly the handlers of the first calls of Interrupt::Idle, before each of which nobody was ready, and then one dispatch; it halts only with nothing ready and every handler fired |
| `Threads.Nucleus.Idle` | code/machine/interrupt.cc:207-227 | handlers run by one idle call are V events of the transition system |
| `Threads.Nucleus.Raise` | code/threads/synch.cc:102-117 | V in a handler while the current thread sleeps is one more event of the run, and cannot fail |
| `Threads.Nucleus.Await` | code/threads/thread.cc:249-251 | the idle loop fires the handlers call by call, going on exactly while nobody is ready and something is left to fire |
| `Threads.Nucleus.SwitchAway` | code/threads/thread.cc:253-255 | the switch that ends it is the Dispatch event |
| `Locks.TakeKeeps` | code/threads/synch.cc:181-185 | P on the lock's semaphore, before lockHolder is set, keeps the lock invariant |
| `Locks.HoldKeeps` | code/threads/synch.cc:181-185 | setting lockHolder keeps the lock invariant |
| `Locks.DropKeeps` | code/threads/synch.cc:198-203 | Release's holder test succeeds, and clearing lockHolder keeps the lock invariant |
| `Locks.GiveKeeps` | code/threads/synch.cc:198-203 | V on the lock's semaphore keeps the lock invariant |
| `Locks.ExactlyOne` | code/threads/synch.cc:181-203 | semaphore value plus the threads between the end of P and the end of V is one |
| `MonitorProofs.StepKeeps` | code/threads/synchlist.cc:51-81 | every statement of Append, RemoveFront, Wait, Signal and Broadcast keeps the monitor invariant, and an ASSERT fails exactly when an item already listed is appended |
| `MonitorProofs.RunKeeps` | code/threads/synchlist.cc:51-81 | the monitor invariant holds after every interleaving, statement by statement, of any number of threads |
| `MonitorTheorems.MutualExclusion` | code/threads/synch.cc:181-203 | in every reachable state the lock's value plus the threads inside it is one |
| `MonitorTheorems.HeldExactlyByHolder` | code/threads/synch.cc:181-203 | IsHeldByCurrentThread is true exactly between the assignment and the clearing of lockHolder |
| `MonitorTheorems.AssertFailsOnlyOnDuplicate` | code/threads/synchlist.cc:51-81 | in a reachable state a statement fails an ASSERT exactly when it appends an item already listed; so RemoveFront never meets an empty list and no deleted waiter semaphore is used |
| `MonitorTheorems.NoScheduleFails` | code/threads/synchlist.cc:51-81 | if no item is passed to two calls of Append, no interleaving of any threads fails an ASSERT |
| `MonitorTheorems.DuplicateFails` | code/threads/synchlist.cc:51-60 | a thread that appends the same item twice in a row fails the ASSERT of List::Append, for every thread and item |
| `MonitorTheorems.FirstInFirstOut` | code/threads/synchlist.cc:51-81 | the items removed so far, followed by the items listed, are the items appended, in order; MonitorHistory ties both to the calls |
| `MonitorHistory.CallsServed` | code/threads/synchlist.cc:51-81 | for every schedule and thread, its calls of Append and RemoveFront, in order, are what it did to the list, in order (each Append putting its own item, each RemoveFront taking the front), followed by the call it is in if that has not got so far; what its RemoveFronts return is what they took |
| `MonitorHistory.AllInOrder` | code/threads/synchlist.cc:51-81 | for every schedule, all items put on the list by any thread, in order, are all items taken off it, in order, followed by the list |
| `MonitorHistory.WaitersInOrder` | code/threads/synch.cc:244-297 | for every schedule, the threads that began to wait, in that order, are those whose semaphores Signal and Broadcast have raised, in that order, then the one about to be raised and those still queued |
| `MonitorHistory.BroadcastsServed` | code/threads/synch.cc:292-297 | for every schedule and thread, the calls of Broadcast are those that have run to their end and the one the thread is in |
| `MonitorTheorems.NoLostSignal` | code/threads/synch.cc:244-283 | with the lock free and a waiter queued, the list is no longer than the number of signalled waiters still to re-test |
| `MonitorTheorems.SignalArrives` | code/threads/synch.cc:273-283 | a signalled waiter's semaphore is raised, or the holder of the lock is about to raise it, even if it has not reached its P |
| `MonitorTheorems.BroadcastWakesExactly` | code/threads/synch.cc:292-297 | Broadcast wakes exactly the waiters present at its call, in order |
| `MonitorTheorems.BroadcastTerminates` | code/threads/synch.cc:292-297 | nobody can join the queue while Broadcast runs, and each of its own steps lowers a rank |
| `Hosting.DownHosted` | code/threads/synch.cc:75-92 | for any program on the kernel: a thread at P, first or woken, takes a unit and moves on exactly if there is one, and otherwise sleeps there; no other semaphore of the program changes |
| `Hosting.UpHosted` | code/threads/synch.cc:102-117 | V by a thread or a handler gives exactly one unit and moves no thread of the program |
| `Hosting.OtherHosted` | code/threads/scheduler.cc:56-167 | switches, other threads and other handlers leave the program's threads and semaphores as they are |
| `Hosting.HaltedHosts` | code/threads/thread.cc:239-255 | when the kernel has nothing to run, every thread inside the program is asleep in P on a semaphore whose value is zero |
| `MonitorOnKernel.RunProjects` | code/threads/synchlist.cc:51-81 | SynchList, Lock and Condition run on kernel semaphores and kernel threads, with any other activity: the run is a run of the monitor and a run of the kernel, with equal semaphore values |
| `HostedCalls.CallsServed` | code/threads/synchlist.cc:51-81 | the same for threads on the kernel: each thread's calls, read off its acts, are what it does to the list while it is the current thread, in order, and the call it is in |
| `MonitorOnKernel.FailsOnlyOnDuplicate` | code/threads/synchlist.cc:51-81 | such a run fails an ASSERT of the kernel, the lock, the condition or the list exactly when an item already listed is appended |
| `MonitorOnKernel.ListIsReachable` | code/threads/synchlist.cc:51-81 | so the list is in a reachable state of the monitor, to which mutual exclusion, first in first out and no lost signal apply |
| `MonitorOnKernel.NoDeadlock` | code/threads/synchlist.cc:51-81 | whenever the kernel has nothing left to run, every thread is outside the list or queued on its condition variable, and if one is queued the list is empty |
| `MonitorOnKernel.Booted` | code/threads/synchlist.cc:22-28 | a booted kernel that makes the list starts such runs |
| `Conditions.Condition.Signal` | code/threads/synch.cc:273-283 | raises the front waiter once, or does nothing on an empty queue |
| `Conditions.Condition.Broadcast` | code/threads/synch.cc:292-297 | empties the queue and raises each queued waiter exactly once, no other |
| `Clock.InsertKeepsOrder` | code/lib/list.cc:232-260 | inserting a newly scheduled interrupt keeps the queue ordered by time, ties by scheduling |
| `Clock.InsertAdds` | code/lib/list.cc:232-260 | insertion adds that interrupt and nothing else |
| `Clock.InsertIsSorted` | code/machine/interrupt.cc:57-63 | the interrupt queue's insertion is the sorted list's, with the comparison of PendingCompare |
| `Clock.ScheduleOrder` | code/machine/interrupt.cc:256-266 | what has fired followed by what is pending stays in order when a later interrupt is scheduled |
| `Clock.Interrupt.constructor` | code/machine/interrupt.cc:72-80 | the whole-run invariant holds at the start, nothing is due or late, and no handler runs |
| `Clock.Interrupt.Schedule` | code/machine/interrupt.cc:256-266 | the interrupt is pending at now + fromNow, in its place among the pending ones, and recorded as asked for by this call; the whole-run invariant is kept; nothing becomes due |
| `Clock.Interrupt.CallBack` | code/machine/interrupt.cc:313-322 | a handler runs with interrupts off: exactly its requests are scheduled, in order, each for its device at now + fromNow under the next number; yieldOnReturn is set exactly if it was or the handler asks for it; the number of due interrupts stays |
| `Clock.Interrupt.FireFront` | code/machine/interrupt.cc:313-322 | fires the front of the queue, running that device's handler, not early, in time and schedule order over the whole run; one fewer is due |
| `Clock.Interrupt.FireAll` | code/machine/interrupt.cc:313-322 | the firing loop terminates and leaves nothing due; everything scheduled is still exactly what the calls of Schedule and the fired handlers asked for; yieldOnReturn is set exactly if it was or one of those handlers asked |
| `Clock.Interrupt.CheckIfDue` | code/machine/interrupt.cc:280-322 | fires exactly if something is due or time may jump; afterwards everything pending is strictly in the future and no handler runs; time jumps only to the next interrupt; nothing is made late |
| `Clock.Interrupt.Advance` | code/machine/interrupt.cc:153-160 | one tick of simulated time, counted in systemTicks in system mode and in userTicks otherwise |
| `Clock.Interrupt.OneTick` | code/machine/interrupt.cc:147-176 | advances by one tick, counted as system or user time by the mode, and leaves only future interrupts; a context switch follows exactly if one had been asked for or a handler fired now asks; outside a handler it stays outside; from a quiet state nothing fires a tick late |
| `Clock.Interrupt.Idle` | code/machine/interrupt.cc:207-227 | jumps exactly to the next interrupt, or halts exactly when none is pending; interrupts stay off, so it can be called again; nothing fires late; the mode afterwards is system mode unless it halts |
| `Clock.Interrupt.SetLevel` | code/machine/interrupt.cc:123-136 | time passes, by one tick, and handlers run only when interrupts are re-enabled, and then nothing due is left and a switch follows exactly if asked for; any other call changes the level alone, also while interrupts are due; outside a handler it stays outside |
| `Clock.Interrupt.Serve` | code/machine/interrupt.cc:123-266 | any call from outside a handler that meets the ASSERTs on its caller leaves nothing due, nothing late and no handler running; how much time passes, under which count, and the mode afterwards |
| `Clock.Interrupt.ServeAll` | code/machine/interrupt.cc:123-322 | over every sequence of such calls no ASSERT fails, SetLevel's on inHandler included; it stops early only at a halt; one tick is counted for each call that enables interrupts or runs an instruction; every interrupt that fired did so at its time or less than one system tick after it; and everything ever scheduled is exactly what the Schedule calls among them and the handlers of the fired interrupts, each run once for its device when it fired, asked for |
| `Lists.InsertedSorted` | code/lib/list.cc:232-260 | for any ordering, insertion keeps the list sorted, adds only the item, and puts it after all equal items |
| `Lists.WithoutAt` | code/lib/list.cc:149-178 | removal takes out exactly the first occurrence |
| `Lists.List.constructor` | code/lib/list.cc:43-47 | an empty list |
| `Lists.List.IsInList` | code/lib/list.cc:185-197 | the pointer walk finds the item exactly if it is listed |
| `Lists.List.Append` | code/lib/list.cc:73-89 | over the linked nodes, the items become the old ones followed by the new one; no item twice |
| `Lists.List.Prepend` | code/lib/list.cc:96-112 | over the linked nodes, the new item followed by the old ones; only a new node joins the list |
| `Lists.List.RemoveFront` | code/lib/list.cc:123-142 | returns and unlinks the first item, keeping first, last and the count right |
| `Lists.List.Remove` | code/lib/list.cc:149-178 | unlinks exactly the item, wherever it is, and it is gone; no node joins the list |
| `Lists.List.Insert` | code/lib/list.cc:232-260 | over the linked nodes, ordered insertion of the item; only a new node joins the list |
| `Bytes.IntRoundTrip` | code/machine/disk.cc:113-151 | a C int read back from its little-endian bytes is the same |
| `Bytes.WordsRoundTrip` | code/filesys/pbitmap.cc:62-79 | an array of unsigned words survives being stored as bytes |
| `Bitmaps.MarkWord` | code/lib/bitmap.cc:55-63 | or-ing one mask into one word sets that bit of the bitmap and no other |
| `Bitmaps.ClearWord` | code/lib/bitmap.cc:72-80 | and-ing out one mask clears that bit and no other |
| `Bitmaps.Bitmap.constructor` | code/lib/bitmap.cc:21-36 | all bits clear |
| `Bitmaps.Bitmap.Mark` | code/lib/bitmap.cc:55-63 | exactly that bit of the packed words becomes set |
| `Bitmaps.Bitmap.Clear` | code/lib/bitmap.cc:72-80 | exactly that bit becomes clear |
| `Bitmaps.Bitmap.Test` | code/lib/bitmap.cc:89-99 | reads that bit |
| `Bitmaps.Bitmap.FindAndSet` | code/lib/bitmap.cc:110-120 | returns and sets the lowest clear bit; -1 and no change exactly when none is clear |
| `Bitmaps.Bitmap.NumClear` | code/lib/bitmap.cc:128-139 | the number of clear bits |
| `DiskImage.HeaderRoundTrip` | code/filesys/filehdr.cc:83-100 | a file header survives being written to its sector and read back |
| `DiskImage.SpliceChunks` | code/filesys/openfile.cc:81-87 | writing two chunks one after the other is writing their concatenation, also when the file end clips them |
| `DiskImage.FileFrame` | code/filesys/openfile.cc:115-142 | a file's bytes depend only on its own data sectors |
| `DiskImage.Rewritten` | code/filesys/openfile.cc:144-183 | rewriting whole sectors with the patched buffer gives the file with the data spliced in |
| `OpenFiles.OpenFile.constructor` | code/filesys/openfile.cc:29-34 | opens the file whose header is in the sector, at position 0 |
| `OpenFiles.OpenFile.ByteToSector` | code/filesys/filehdr.cc:112-116 | the sector is one of the file's own |
| `OpenFiles.OpenFile.ReadAt` | code/filesys/openfile.cc:115-142 | for every alignment, the clipped range of the flat file, and its length; the rest of the buffer is kept; the end of the request is an int |
| `OpenFiles.OpenFile.Fill` | code/filesys/openfile.cc:144-183 | the scratch buffer holds the data between the bytes the file already has in its first and last sectors |
| `OpenFiles.OpenFile.WriteSectors` | code/filesys/openfile.cc:144-183 | writes the buffer to exactly the covered data sectors |
| `OpenFiles.OpenFile.WriteAt` | code/filesys/openfile.cc:144-183 | the flat file changes in exactly the clipped range, for every alignment; no sector outside the file changes; a clipped-out write changes nothing |
| `OpenFiles.OpenFile.Seek` | code/filesys/openfile.cc:54-58 | sets the position |
| `OpenFiles.OpenFile.Read` | code/filesys/openfile.cc:73-79 | reads at the position and moves it by what was read; the end of the request is an int |
| `OpenFiles.OpenFile.Write` | code/filesys/openfile.cc:81-87 | writes at the position and moves it by what was written |
| `OpenFiles.OpenFile.WriteChunks` | code/filesys/openfile.cc:81-87 | successive Writes of chunks leave the file, position and count as one Write of their concatenation, and no sector outside the file changes |
| `OpenFiles.SynchDisk.ReadSector` | code/filesys/synchdisk.cc:57-64 | to its caller, the reply the disk gives to this access in SynchDisks and Disks |
| `OpenFiles.SynchDisk.WriteSector` | code/filesys/synchdisk.cc:75-82 | to its caller, the disk contents after this access in SynchDisks and Disks: exactly that sector is replaced |
| `FileHeaders.FirstFitFresh` | code/filesys/filehdr.cc:43-58 | the allocated sectors are distinct and were free |
| `FileHeaders.ClearUndoesSet` | code/filesys/filehdr.cc:67-74 | clearing what an allocation set restores the bitmap |
| `FileHeaders.FileHeader.FetchFrom` | code/filesys/filehdr.cc:83-87 | reads the header from its sector |
| `FileHeaders.FileHeader.WriteBack` | code/filesys/filehdr.cc:96-100 | the sector decodes to this header |
| `FileHeaders.FileHeader.Allocate` | code/filesys/filehdr.cc:43-58 | succeeds exactly when enough bits are clear; FindAndSet then never runs out; sets exactly the first free bits; on failure changes nothing |
| `FileHeaders.FileHeader.Deallocate` | code/filesys/filehdr.cc:67-74 | clears exactly the file's data bits, each of which was set |
| `Directories.SameIsKey` | code/filesys/directory.cc:89-96 | strncmp over nine characters is equality of truncated names |
| `Directories.CopiedName` | code/filesys/directory.cc:128-142 | strncpy over nine characters stores the truncated name |
| `Directories.TableRoundTrip` | code/filesys/directory.cc:62-79 | the directory table survives being stored as bytes |
| `Directories.Directory.constructor` | code/filesys/directory.cc:37-43 | no entry in use |
| `Directories.Directory.FindIndex` | code/filesys/directory.cc:89-96 | the entry in use with that truncated name, or -1 exactly when there is none |
| `Directories.Directory.Find` | code/filesys/directory.cc:107-115 | that entry's header sector, or -1 |
| `Directories.Directory.Add` | code/filesys/directory.cc:128-142 | fails exactly for a known name or a full table; otherwise fills exactly the first free slot |
| `Directories.Directory.Remove` | code/filesys/directory.cc:152-161 | frees exactly the found entry; fails exactly for an unknown name |
| `FileSystemProofs.FormattedSound` | code/filesys/filesys.cc:81-143 | a disk that lists nothing and marks only the system sectors satisfies the ownership invariant |
| `FileSystemProofs.CreatedKeeps` | code/filesys/filesys.cc:174-214 | Create keeps the ownership invariant: set bits are exactly the sectors owned, no sector has two owners |
| `FileSystemProofs.RemovedKeeps` | code/filesys/filesys.cc:256-286 | Remove keeps the ownership invariant |
| `FileSystemProofs.WroteKeeps` | code/filesys/openfile.cc:144-183 | a write through any handle, whatever has happened to its file, keeps the ownership invariant if the handle's sectors are neither the system's nor a listed file's header |
| `FileSystemProofs.RunKeeps` | code/filesys/filesys.cc:81-286 | the ownership invariant holds after every run, from a sound disk, of Create, Remove, failing calls and writes through any handles that are harmless in that sense when they write |
| `FileSystemProofs.RemoveUndoesCreate` | code/filesys/filesys.cc:174-286 | Create then Remove of the same truncated name restores the bitmap and the directory's name map |
| `FileSystemProofs.CreatedKeepsOthers` | code/filesys/filesys.cc:174-214 | Create leaves the entry, the header and the bytes of every listed file as they were |
| `FileSystemProofs.RemovedKeepsOthers` | code/filesys/filesys.cc:256-286 | Remove leaves the entry, the header and the bytes of every other listed file as they were |
| `FileSystemHandles.CurrentHarmless` | code/filesys/openfile.cc:29-34 | a handle with the current header of a listed file is harmless |
| `FileSystemHandles.HandleStaysCurrent` | code/filesys/openfile.cc:29-34 | a handle stays current, and harmless, through every run of Creates, Removes and harmless writes in which its own file is not removed |
| `FileSystemHandles.HarmlessExactly` | code/filesys/openfile.cc:144-183 | every write through a handle keeps the ownership invariant if and only if none of its sectors is the system's or a listed file's header |
| `FileSystemHandles.WroteKeepsOthers` | code/filesys/openfile.cc:144-183 | a write leaves alone, header and bytes, every file that owns none of the handle's sectors |
| `FileSystemHandles.AvoidsExactly` | code/filesys/openfile.cc:144-183 | every write through a handle leaves a file alone if and only if the file owns none of the handle's sectors |
| `FileSystemHandles.CurrentAvoidsOthers` | code/filesys/openfile.cc:29-34 | a handle with the current header of a listed file reaches no other listed file |
| `FileSystemHandles.HappensKeepsFile` | code/filesys/filesys.cc:174-286 | Create, Remove of another file, a failing call and a harmless write keep a listed file's entry and header; its bytes change only by a write into its sectors |
| `StaleHandles.DataBecomesHeader` | code/filesys/filesys.cc:174-286 | on every sound disk: after Create of a one-sector file, its Remove and two Creates of empty files, the data sector of a handle opened in between is the header of a listed file |
| `StaleHandles.WriteThroughStaleHandle` | code/filesys/openfile.cc:29-34 | from a fresh format, that sequence and a write of ones through the old handle leave a disk that violates the ownership invariant |
| `FileSystemProofs.CreateWrites` | code/filesys/filesys.cc:174-214 | writing back header, directory and bitmap, in that order and to the same disk, is the effect of Create |
| `FileSystemProofs.RemoveWrites` | code/filesys/filesys.cc:256-286 | writing back bitmap and directory is the effect of Remove |
| `FileSystemProofs.FormatWrites` | code/filesys/filesys.cc:81-143 | the four writes of formatting give a sound disk |
| `FileSystems.FetchMap` | code/filesys/pbitmap.cc:62-66 | the bitmap read from its file is the disk's free map |
| `FileSystems.StoreMap` | code/filesys/pbitmap.cc:75-79 | only the bitmap file's data sectors change, and they decode to the bitmap |
| `FileSystems.FetchDirectory` | code/filesys/directory.cc:62-66 | the table read from its file is the disk's listing |
| `FileSystems.StoreDirectory` | code/filesys/directory.cc:75-79 | only the directory file's data sectors change, and they decode to the table |
| `FileSystems.FileSystem.constructor` | code/filesys/filesys.cc:137-143 | opens the two files of a sound disk |
| `FileSystems.FileSystem.Format` | code/filesys/filesys.cc:81-136 | whatever the disk held, it becomes sound, lists nothing and has all but five sectors free |
| `FileSystems.FileSystem.Create` | code/filesys/filesys.cc:174-214 | succeeds exactly when the name is new, a slot is free and header plus data fit; then has exactly the effect above; otherwise no sector changes |
| `FileSystems.FileSystem.Open` | code/filesys/filesys.cc:226-240 | the file whose truncated name matches, or nothing exactly when there is none |
| `FileSystems.FileSystem.Remove` | code/filesys/filesys.cc:256-286 | succeeds exactly for a listed name, with exactly the effect above; otherwise no sector changes |
| `Device.StepKeeps` | code/filesys/synchdisk.cc:57-94 | every statement and every completion interrupt keeps the device invariant and fails no ASSERT |
| `Device.RunKeeps` | code/filesys/synchdisk.cc:57-94 | the device invariant holds after every interleaving of any number of threads and interrupts |
| `Device.NoOverlap` | code/machine/disk.cc:113-163 | requests never overlap: active plus the completion semaphore is the number, 0 or 1, of threads between request and end of P |
| `Device.WakesItself` | code/filesys/synchdisk.cc:57-94 | a thread gets past its P only when its own request, the latest, has completed |
| `Device.CompletionComes` | code/filesys/synchdisk.cc:90-94 | a waiting thread's completion has come or is scheduled |
| `Device.OneAfterAnother` | code/machine/disk.cc:113-151 | the requests take effect one after another and every reply is the one that order gives |
| `Device.CallsInOrder` | code/filesys/synchdisk.cc:57-82 | in every interleaving the device performs each thread's commands exactly as called: each once, unchanged, in that order, all but possibly the last |
| `DeviceOnKernel.RunProjects` | code/filesys/synchdisk.cc:57-94 | the protocol on kernel semaphores, threads and interrupt handlers fails no ASSERT, and is a run of the protocol and a run of the kernel |
| `DeviceOnKernel.NoDeadlock` | code/filesys/synchdisk.cc:57-94 | whenever the kernel has nothing left to run and no completion is scheduled, every thread has left the protocol |
| `DeviceOnKernel.Booted` | code/filesys/synchdisk.cc:28-33 | a booted kernel that makes the two semaphores starts such runs |
| `SynchDisks.ReadsLatestWrite` | code/filesys/synchdisk.cc:57-82 | in every run, from any disk contents, each read returns the data of the latest write to its sector, or what the disk held at the start if there was none |
| `SynchDisks.HoldsLatestWrite` | code/filesys/synchdisk.cc:75-82 | after every run each sector holds the data of the latest write to it, or what it held at the start |
| `DiskLatency.UnbufferedStart` | code/machine/disk.cc:229-250 | without the track buffer, the transfer starts at a sector boundary with the target under the head, and at the first such moment after the seek |
| `DiskLatency.UnbufferedBounds` | code/machine/disk.cc:229-250 | that latency lies in [RotationTime, 31*SeekTime + 33*RotationTime) |
| `DiskLatency.HitMeans` | code/machine/disk.cc:229-250 | a read hits the track buffer if and only if no seek is needed and its sector has passed the head entirely since bufferInit by the next sector boundary |
| `DiskLatency.HitAtRequest` | code/machine/disk.cc:229-250 | a hit comes too early, the sector not having passed at the request, exactly when the request falls within the sector's first pass after bufferInit; by the completion it always has passed |
| `DiskLatency.HitTooEarly` | code/machine/disk.cc:229-250 | a hit at time 10 on a sector whose first pass lasts until 500 |
| `DiskLatency.HitFaster` | code/machine/disk.cc:229-250 | the answer is never slower than without the buffer |
| `DiskLatency.LatencyIs` | code/machine/disk.cc:229-250 | the transfer alone for a buffered read, and otherwise until the sector, first found under the head after the seek, has passed it |
| `DiskLatency.BufferHolds` | code/machine/disk.cc:258-268 | after every run of requests one at a time, bufferInit is a past sector boundary and every request since was for the buffered track |
| `DiskLatency.BufferSince` | code/machine/disk.cc:258-268 | after every run of requests the arm is where the last one was, and bufferInit is when the arm settled for the last request that changed the track, or 0 |
| `DiskLatency.CompletesAt` | code/machine/disk.cc:229-268 | in every run of requests one at a time, each completes one sector time after it came if the track buffer, filling since the last seek settled, has its sector by the next boundary; otherwise when the sector, first found under the head after the seek, has passed |
| `DiskLatency.ModuloDiff` | code/machine/disk.cc:199-206 | the number of sectors, 0 to 31, from one position forward to the other |
| `DiskLatency.SeekCosts` | code/machine/disk.cc:176-191 | a seek costs nothing on one track, SeekTime to a neighbouring one, the same in both directions, and over a track between the sum of both parts |
| `DiskLatency.OnlySeek` | code/machine/disk.cc:176-191 | the seek time is the only cost with those properties |
| `Disks.Disk.TimeToSeek` | code/machine/disk.cc:176-191 | the seek time, as DiskLatency.SeekCosts and OnlySeek determine it, and the wait after which the head is at the next sector boundary |
| `Disks.Disk.ComputeLatency` | code/machine/disk.cc:229-250 | the specified, always positive, latency |
| `Disks.Disk.UpdateLast` | code/machine/disk.cc:258-268 | the position the run specification gives |
| `Disks.Disk.ReadRequest` | code/machine/disk.cc:113-131 | reads the sector at once, becomes active, schedules completion at the specified latency |
| `Disks.Disk.WriteRequest` | code/machine/disk.cc:133-151 | replaces exactly that sector, becomes active, schedules completion at the specified latency |
| `Disks.Disk.CallBack` | code/machine/disk.cc:158-163 | the completion makes the disk free for the next request |
| `Disks.Disk.ServeInTurn` | code/machine/disk.cc:113-163 | requests one after another: the head follows the run specification, and replies and contents are those of the accesses in turn |
| `Wire.WireRoundTrip` | code/network/post.cc:299-329 | a message read back from its 64 bytes on the wire, whatever pads them, is the message sent |
| `Wire.PacketLayout` | code/machine/network.h:32-39 | read as integers a packet begins with to, from and length of the packet header and of the mail header; then comes the data |
| `Wire.CopiedWhole` | code/machine/network.cc:60-103 | copying only the bytes in use, over stale ones, keeps the message |
| `PostOffice.StepKeeps` | code/network/post.cc:190-254 | every send, poll, worker statement and Receive keeps the post office invariant; an ASSERT fails exactly over a mailbox number that does not exist |
| `PostOffice.RunKeeps` | code/network/post.cc:190-254 | the post office invariant holds after every run |
| `PostOffice.OnePacketBuffered` | code/machine/network.cc:60-103 | messageAvailable plus one for a worker between P and Receive equals the 0 or 1 packets buffered |
| `PostOffice.FailsOnlyOnWrongBox` | code/network/post.cc:190-241 | after any run, a step fails an ASSERT of device, worker or Receive exactly over a mailbox number that does not exist |
| `PostOffice.NoRunFails` | code/network/post.cc:190-241 | if every message sent and not lost names a mailbox that exists, and so does every Receive, no run fails an ASSERT |
| `PostOffice.MissingBoxFails` | code/network/post.cc:190-216 | one message to any mailbox that does not exist, delivered, fails the worker's ASSERT |
| `PostOffice.SomeRunFails` | code/network/post.cc:190-216 | every post office, however many mailboxes it has, has a failing run |
| `PostOffice.InOrder` | code/network/post.cc:97-137 | in every run, what the Receives from a mailbox returned, then what waits in it, begins the sequence of messages that were sent to it and not lost: in order, uncorrupted, none twice; it is all of that sequence when nothing is on its way |
| `PostOffice.InOrderPerSender` | code/network/post.cc:119-137 | the same for what the Receives returned of each sending machine by itself |
| `PostOffice.EverythingArrives` | code/network/post.cc:191-217 | those polls and statements, at most four for each packet in the socket and four more, empty socket, buffer and hand |
| `PostOffice.NothingMissing` | code/network/post.cc:191-217 | wherever a run of well-addressed messages stands, polls and statements of the worker alone lead to a state where every message sent to a mailbox and not lost has been obtained from it or waits in it |
| `PostOffices.PostOfficeInput.constructor` | code/network/post.cc:153-165 | empty mailboxes, nothing buffered |
| `PostOffices.PostOfficeInput.CallBack` | code/machine/network.cc:60-86 | in place, exactly the poll step |
| `PostOffices.PostOfficeInput.Receive` | code/machine/network.cc:93-103 | in place, exactly the receive step |
| `PostOffices.PostOfficeInput.Deliver` | code/network/post.cc:203-215 | in place, exactly the delivery step |
| `PostOffices.PostOfficeInput.PostalDelivery` | code/network/post.cc:190-216 | one turn of the worker moves exactly the buffered message into its mailbox and leaves the buffer free |
| `PostOffices.PostOfficeInput.Get` | code/network/post.cc:119-137 | in place, exactly the Receive step on a non-empty mailbox: it returns the message at the front, leaves the rest, and touches no other mailbox |
| `Posting.SendsInTurn` | code/network/post.cc:299-343 | however senders interleave, a socket receives exactly the packets sent to it and not lost, in their order under sendLock |
| `Posting.MachineToMachine` | code/network/post.cc:299-343 | the packets one machine's senders put on the network are Send events of the receiving office, which then has exactly them, in order, in its socket |
| `Networks.StepKeeps` | code/network/post.cc:190-343 | with any number of sending machines, each with any threads, every event keeps the invariant that the receiver was sent exactly what each device transmitted; the sender's ASSERTs never fail, the receiver's exactly over a missing mailbox |
| `Networks.MailInOrder` | code/network/post.cc:97-343 | in every run of all machines, what the Receives from a mailbox returned of a machine, then what waits there of it, begins what that machine's device transmitted to the mailbox and the network did not lose, and is all of it when nothing is on its way |
| `Networks.SenderRuns` | code/network/post.cc:299-343 | each machine's own events of that run are a run of the device protocol, ending in its part of the final state |
| `Networks.SendsOfThreads` | code/network/post.cc:299-343 | so what a machine has transmitted is what its threads' calls of Send handed over, each thread's in its own order, all but possibly the last |
| `Multiply.MultiplyWords` | code/machine/mipssim.cc:792-816 | the shift-and-add loop gives the full 64-bit product of the two words, despite arithmetic shift and early exit |
| `Multiply.Negate` | code/machine/mipssim.cc:818-824 | two's complement of a double word |
| `Multiply.Mult` | code/machine/mipssim.cc:771-828 | hi and lo are exactly the signed or the unsigned product, for all operands including the most negative int |
| `MipsMemory.NoFault` | code/machine/translate.cc:184-251 | translation succeeds if and only if the address is aligned and its page mapped, writable if written, and within memory |
| `MipsMemory.WhichFault` | code/machine/translate.cc:184-251 | an address error exactly if no table of that size would let the access through; otherwise a page fault exactly for an invalid page, then a read-only exception exactly for a write to a read-only page, then a bus error exactly for a frame outside memory |
| `MipsMemory.KeepLowBytes` | code/machine/mipssim.cc:335-360 | byte by byte, what the shift-up masks of LWL and SWR compute |
| `MipsMemory.KeepHighBytes` | code/machine/mipssim.cc:396-417 | byte by byte, what the shift-down masks of LWR and SWL compute |
| `WordMasks.KeepLowIsBits` | code/machine/mipssim.cc:335-360 | the masks, shifts and ors of LWL and SWR on 32-bit words are the arithmetic that the model computes with |
| `WordMasks.KeepHighIsBits` | code/machine/mipssim.cc:396-417 | the same for LWR and SWL, whose right shifts are arithmetic |
| `MipsMemory.ReadBack` | code/machine/translate.cc:85-167 | a word written to memory reads back the same |
| `Unaligned.LatestDelayed` | code/machine/mipssim.cc:711-718 | what a program sees in a register does not depend on when the delayed load lands |
| `Unaligned.LwlLoads` | code/machine/mipssim.cc:312-362 | LWL at v moves the bytes at v and below, to the word boundary, into the top of rt and keeps its other bytes |
| `Unaligned.LwrLoads` | code/machine/mipssim.cc:364-418 | LWR at v moves the bytes at v and above, to the word boundary, into the bottom of rt and keeps its other bytes |
| `Unaligned.LeftThenRight` | code/machine/mipssim.cc:312-418 | LWL at a+3 then LWR at a load the little-endian word at a, for every a, with or without an interrupt between, and change no other register |
| `Unaligned.RightThenLeft` | code/machine/mipssim.cc:312-418 | the same in the other order |
| `Unaligned.SameBase` | code/machine/mipssim.cc:312-418 | with one base register the pair works whenever rt is not the base and no load to the base is pending |
| `Unaligned.SwlStores` | code/machine/mipssim.cc:552-609 | SWL at v writes rt's top bytes to v and below, and no other cell of memory |
| `Unaligned.SwrStores` | code/machine/mipssim.cc:611-668 | SWR at v writes rt's bottom bytes to v and above, and no other cell of memory |
| `Unaligned.StoreLeftRight` | code/machine/mipssim.cc:552-668 | SWL at a+3 then SWR at a write exactly a..a+3 and no other cell, even across pages sharing a frame and with or without an interrupt between; the first store uses rt as it is, the second rt with any pending load landed |
| `Unaligned.StoreRightLeft` | code/machine/mipssim.cc:552-668 | the same in the other order |
| `Unaligned.StoresRegister` | code/machine/mipssim.cc:711-718 | with no load to rt pending, the word either pair stores is rt |
| `Unaligned.SameBaseLeftRight` | code/machine/mipssim.cc:552-668 | with one base register SWL at offset+3 then SWR at offset store the word, whenever no load to the base is pending; rt may be the base |
| `Unaligned.SameBaseRightLeft` | code/machine/mipssim.cc:552-668 | the same in the other order |
| `Restarts.CountersMove` | code/machine/mipssim.cc:690-700 | a finished instruction moves the program counters on by one instruction: previous, current and next |
| `Restarts.TrapIsUnseen` | code/machine/machine.cc:100-110 | an exception records its address and finishes the pending load; memory, table, counters and what the program sees of its registers stay |
| `Restarts.FlushIsUnseen` | code/machine/interrupt.cc:309-311 | so does an interrupt between two instructions: every register then holds the value that was pending for it, and no program can tell |
| `Restarts.FaultsCleanly` | code/machine/mipssim.cc:312-668 | an instruction that faults has changed nothing: registers as after the trap, memory and counters as before |
| `Restarts.SameTarget` | code/machine/mipssim.cc:312-668 | after a fault the instruction finds its address again if and only if no other value was pending for its base register |
| `Restarts.LoadsAgain` | code/machine/mipssim.cc:312-418 | in that case LWL and LWR, run again after the kernel has replaced the page table, do what they would have done on that table at once |
| `Restarts.StoresAgain` | code/machine/mipssim.cc:552-668 | so do SWL and SWR, if no other value was pending for the stored register either |
| `PageBits.InstrMarks` | code/machine/translate.cc:237-251 | one instruction sets the use bit of its page exactly if it gets past the read, the dirty bit exactly if it stores, nothing else in the table, and changes memory only in the frame of a page it dirtied |
| `PageBits.BitsTell` | code/machine/translate.cc:237-251 | after any program of these instructions, interrupts and exceptions among them, the use bits are those set before or of pages read from, the dirty bits those set before or of pages written to, and nothing else in the table has changed |
| `PageBits.CleanFrame` | code/machine/translate.cc:244-246 | a frame none of whose pages is dirty after the program holds what it held before it |
| `Unaligned.StoredReads` | code/machine/mipssim.cc:312-668 | the load pair reads back what the store pair wrote |
| `Machines.Machine.constructor` | code/machine/machine.cc:55-76 | registers and memory zero, the given page table |
| `Machines.Machine.Translate` | code/machine/translate.cc:184-251 | the specified verdict and address; use and dirty bits set on success only; the closing ASSERT cannot fail |
| `Machines.Machine.ReadWord` | code/machine/translate.cc:85-120 | the word at the translated address, or the exception raised with nothing else changed |
| `Machines.Machine.WriteWord` | code/machine/translate.cc:135-167 | exactly the specified write and end of instruction, or the exception |
| `Machines.Machine.DelayedLoad` | code/machine/mipssim.cc:711-718 | in place, the specified delay-slot step |
| `Machines.Machine.RaiseException` | code/machine/machine.cc:100-110 | in place, the bad address recorded and the pending load finished |
| `Machines.Machine.LoadWordLeft` | code/machine/mipssim.cc:312-362 | in place, exactly the specified LWL, faults included |
| `Machines.Machine.LoadWordRight` | code/machine/mipssim.cc:364-418 | in place, exactly the specified LWR, faults included |
| `Machines.Machine.StoreWordLeft` | code/machine/mipssim.cc:552-609 | in place, exactly the specified SWL, faults included |
| `Machines.Machine.StoreWordRight` | code/machine/mipssim.cc:611-668 | in place, exactly the specified SWR, faults included |
| `HashTables.InItsBucket` | code/lib/hash.cc:166-181 | an item is in the map exactly if it is in its hash bucket |
| `HashTables.SameBucket` | code/lib/hash.cc:88-94 | two keys share a bucket exactly when their hash values differ by a multiple of the number of buckets |
| `HashTables.MoveKeeps` | code/lib/hash.cc:134-153 | moving one item to the new array loses and doubles nothing and puts it where it hashes |
| `HashTables.Resize` | code/lib/hash.cc:108-124 | with the growth rule, one more item never exceeds ResizeRatio items per bucket |
| `HashTables.HashTable.constructor` | code/lib/hash.cc:28-35 | the empty map, with the given key and hash functions |
| `HashTables.HashTable.FindInBucket` | code/lib/hash.cc:166-181 | an item of the bucket with that key, or none exactly when there is none |
| `HashTables.HashTable.FindNextFullBucket` | code/lib/hash.cc:249-259 | the first non-empty bucket from there on |
| `HashTables.HashTable.Find` | code/lib/hash.cc:191-198 | lookup in the map |
| `HashTables.HashTable.Insert` | code/lib/hash.cc:108-124 | the map extended by the item, items in their buckets, numItems the sum of bucket sizes and at most three per bucket; the table grows, to four times its size, exactly when it is full to that ratio |
| `HashTables.HashTable.Remove` | code/lib/hash.cc:208-223 | returns the key's item and removes exactly that key |
| `HashTables.HashTable.ReHash` | code/lib/hash.cc:134-153 | four times the buckets, the same map |
| `HashTables.HashIterator.constructor` | code/lib/hash.cc:331-340 | all items lie ahead, in bucket order |
| `HashTables.HashIterator.IsDone` | code/lib/hash.h:108-109 | done exactly when nothing lies ahead |
| `HashTables.HashIterator.Item` | code/lib/hash.h:110-111 | the first item ahead |
| `HashTables.HashIterator.Next` | code/lib/hash.cc:347-360 | passes exactly that item, skipping empty buckets |
| `HashTables.Visit` | code/lib/hash.h:93-100 | a full pass meets every item of the map exactly once |
| `Decimals.DecimalInjective` | code/userprog/ksyscall.h:155-185 | canonical decimal notation is unambiguous |
| `Numbers.CheckNumString` | code/userprog/ksyscall.h:66-91 | true exactly for the canonical notation of the int ("-" for the most negative one); looks in front of its string exactly for proper suffixes of a positive number's digits |
| `Numbers.OverrunExample` | code/userprog/ksyscall.h:66-91 | the arguments 12 and "2" make it look in front of the string |
| `Numbers.NeverOverruns` | code/userprog/ksyscall.h:125-147 | SysReadNum never passes such arguments |
| `Numbers.Accumulate` | code/userprog/ksyscall.h:125-140 | the digit loop, with wrap-around, or the refusal of any other character |
| `Numbers.Console.ReadLine` | code/userprog/ksyscall.h:95-108 | the buffer holds the line as a C string and the input is consumed up to its newline |
| `Numbers.Console.ReadNum` | code/userprog/ksyscall.h:93-153 | returns a nonzero v exactly when the text is v's canonical decimal and has at most ten characters or is that of the most negative int; otherwise 0 |
| `Numbers.Console.PrintNum` | code/userprog/ksyscall.h:155-185 | prints the canonical decimal of every int |
| `Numbers.RoundTrip` | code/userprog/ksyscall.h:93-185 | reading what was printed gives v back if and only if v >= -999999999 or v is the most negative int |
| `BubbleSorts.SwapBounded` | code/test/sort.c:18-27 | a window whose last element is its extreme cannot be swapped at its end: the next pass shrinks it |
| `BubbleSorts.Pass` | code/test/sort.c:15-30 | after one pass, from the last swap on the window is in order above everything before it |
| `BubbleSorts.BubbleSort` | code/test/sort.c:10-32 | terminates with a sorted permutation for either order and any length, elements past n untouched |

## Left out

- SWITCH, ThreadRoot and stack set-up: a switch is a change of the current thread.
- Host wrappers: a socket is a FIFO to which the network may fail to deliver, the UNIX disk file is an array of sectors; clocks, random numbers, device handlers and the contents of uninitialised memory are parameters.
- The stub FileSystem and OpenFile, which call the host's files.
- System-call dispatch, consoles, command-line parsing, debugging output, self tests and destructors.
- The other MIPS opcodes, instruction fetch and decoding, byte and half-word memory accesses, big-endian hosts and TLB mode.
- The kernel's exception handlers: RaiseException is modelled up to the call of ExceptionHandler.
- Crash consistency and concurrent file system calls: file system operations run one at a time.
- Overflow of the tick counters: time is unbounded.
- Thread and semaphore identifiers are not reused after deletion, and kernel semaphores are not deleted (the monitor model does delete its waiter semaphores and shows none is used afterwards).
- FileSystems.FileSystem.Create: takes 0 <= initialSize <= MaxFileSize, which the header format requires and the code does not test.
- OpenFiles.OpenFile.ReadAt: takes position >= 0 and position + numBytes below 2^31, neither of which the code tests; beyond that the sum wraps around and the request is not clipped.
- OpenFiles.OpenFile.Read: the same two limits, with the current position.
- OpenFiles.OpenFile.WriteAt: takes position >= 0; the sum of position and length is unbounded, where the code's wraps around at 2^31.
- OpenFiles.OpenFile.Write: as WriteAt, with the current position.
- OpenFiles.SynchDisk.ReadSector: a plain store for the file system's one caller at a time; the lock, the semaphore and the device behind it are in SynchDisks, over the same DiskImage.Serve.
- OpenFiles.SynchDisk.WriteSector: the same.
- The postal worker is not run on Kernel, as the monitor and the device protocol are: its one semaphore is a counter in PostOffice.
- MonitorOnKernel.NoDeadlock: safety only; that a ready thread is eventually dispatched is KernelTheorems.DispatchedWithin, and no fairness of the timer is assumed.
- Threads.Nucleus.V: the queues of the semaphores are sequences; only the ready list is over linked nodes.
- Directories.TableRoundTrip: the padding bytes of a stored directory entry are modelled as zero.
- Bytes past the end of a file in its last sector are not promised to survive a write.
- Numbers.Console.ReadLine: takes a line of at most 12 characters, the size of the source's unchecked buffer less its terminator.
- Numbers.Console.ReadNum: the same limit on the line.
- HashTables.HashTable.Insert: a bucket is modelled by its list's item sequence; the linked nodes are modelled in Lists.
- Lists.List.Insert: the comparison function is an argument instead of a field of a subclass.
- PostOffices.PostOfficeInput.PostalDelivery: one turn of the endless loop, once P has returned and for a mailbox that exists.
- PostOffice.InOrder: mailboxes are indivisible queues here; that SynchList behaves so is shown in MonitorTheorems.
- Posting.SendsInTurn: one sending machine; each machine's sends reach a socket in its own order.
- Posting.MachineToMachine: the sends of one machine, before the receiving office has begun to poll; Networks.MailInOrder is about all machines and all interleavings.
