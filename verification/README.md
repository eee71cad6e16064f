# hakuX kernel machinery, modelled and proved in Dafny

hakuX reimplements the Xbox kernel and the console's devices. This project models the parts of it that are
machinery with state and no I/O of their own, and proves what their callers rely on. One module a component:

- **Guest memory** (`GuestState`, `Protection`, `Relocation`, `Windows`, `Placement`, `Backing`, `Tracking`,
  `GuestMemory`): the physical page allocator that frees a contiguous window by moving live pages, demand
  mapping with rollback, and the write tracker over it. `GuestState.State` is what the arrays of `NcVm` hold;
  `GuestMemory.Memory` is the arrays themselves and the loops over them, each proved against the values.
- **Overlapped reads** (`Reads`): the reader's queue and the pins that hold a buffer's pages in place while
  allocation moves others.
- **Synchronization** (`Dispatcher`, `Grants`, `Mutants`, `Handover`, `CriticalSection`, `FastPath`, `RwLock`,
  `Apc`): waits and the pass over the threads after every signal, what waits are given and when they end, who
  holds a mutant, critical sections as kernel calls and as guest code, reader/writer locks, and nested APC chains. A kernel call is one step: there is one guest CPU.
- **Idle wake-up** (`IdleWait`): the flag, mutex and condition variable between device threads and the guest
  CPU, every load and store a step of its own.
- **Kernel pool** (`FreeList`, `Pool`), on top of `GuestMemory.Memory`.
- **Devices**: the OHCI controller's transfers and done queue (`TransferBuffer`, `Ohci`, `OhciFrames`) and
  the vblank's phase lock (`Vblank`).
- **Patches and cheats**: layered patches over savestates (`Mods`), the sealed disc overlay (`Overlay`) and the
  flat cheat interpreter (`Cheats`).

`Wrappers` (optional values), `Holding` (who was woken, sums of holds) and `Powers` (arithmetic) are what several
of these share.

Code that updates state in place is a class or a method here, whose postcondition equates the new state with a
function of the old one; the theorems are lemmas about those functions and about whole runs of them. Inputs the
model does not compute are parameters quantified over: what devices answer to a packet, the clock, which vsync
there is, what the guest does between calls.

## Where the code does not meet a property

Each is stated with the exact condition, or with an input that shows it.

- A release of a semaphore compares a sum that wraps in 32 bits, so its count stays in range exactly while the
  sum fits 31 bits (`Dispatcher.ReleaseInRangeExactly`).
- A wait-all checks each object once and takes it as often as it is named, so counts stay in range exactly when
  no semaphore is named more often than it has counts (`Dispatcher.TakenInRangeExactly`); two names and one
  count drive it below zero (`Dispatcher.DuplicateWaitAllOverdraws`).
- A mutant that is free can be returned: it is then held by its owner, or free without one, exactly where some
  thread held it (`Mutants.ReturnKeepsMutantExactly`), and after a return of a free one two threads have it
  (`Mutants.FreeReturnLetsTwoIn`).
- The guest-code leave of a critical section is the kernel's but where LockCount is the most negative number
  and this is the last leave (`FastPath.LeaveIsKernelLeaveExactly`).
- Mapping a page at a second address breaks write tracking, and only that does; wherever it happens, a run
  follows that ends in an unreported store (`Tracking.MapKeepsExactlyWithoutAlias`, `Tracking.AliasLosesWrites`).
- Out of memory, `nc_vm_alloc_at` has unmapped as many pages of its range as were free: the mappings are as
  before exactly when those had none (`Backing.RestoredMappings`).
- Rolling `nc_vm_alloc_at` back restores the reverse map exactly when no free page had a stale entry
  (`Backing.RestoredReverseMap`). Mapping an address to one page, then to another, and freeing the first leaves
  such an entry, and a failed call then loses it (`Backing.StaleEntryIsLost`).
- Initializing a KAPC clears its Inserted byte, queued or not; the bytes keep saying what is queued exactly when
  it was not (`Apc.InitializeKeepsExactly`).
- A page's lock count saturates at 127, so a read's pins are given back exactly below that
  (`Reads.LockRestoredBelowLimit`).
- A short transfer that stops at its buffer's page crossing, BE in page 0, leaves CBP 0: an empty buffer, not
  the rest of it (`TransferBuffer.ShortTransferExactly`).
- A pool request above 0xFFFF0000 bytes wraps when it is rounded (`FreeList.SizesFitExactly`,
  `FreeList.HugeRequestTakesNothing`).
- `wrap_half` leaves (-pd/2, pd/2] for a period of 1, and for one phase of an odd period when its argument is
  negative; nowhere else (`Vblank.WrapHalfInRangeExactly`).
- `disc_headers` is the disc's word exactly when the bytes the first patch over it was recorded over are the
  disc's four (`Mods.HeadersAreTheDiscsExactly`), which an earlier patch over part of the word undoes
  (`Mods.PartialPatchMisreadsHeaders`). Clearing the header page leaves the disc's bytes exactly where the disc
  has zeros past what it found (`Mods.ClearIsDiscExactly`).
- A cheat's line rejected for text after it has moved the depth already if it is an end of an open if, or an if
  with room for it. A line keeps the depth that of the lines kept exactly when it is not such a line
  (`Cheats.AddedExactly`). With eight ifs open a rejected end lets a ninth in, past the eight entries of
  `run_one`'s stack (`Cheats.RejectedEndOverflows`); a rejected if lets in an end without it, which `run_one`
  skips (`Cheats.RejectedIfStaysOpen`).

## Model

| member | source | states |
|---|---|---|
| GuestMemory.Memory.constructor | native/core/vm.c:28-89 | memory starts with the boot claims used, nothing mapped and every view open |
| GuestMemory.Memory.MapOne | native/core/vm.c:91-128 | mapping a page sets its entry, its reverse entry and a view protected as no-access and tracking ask |
| GuestMemory.Memory.MapPages | native/core/vm.c:91-128 | a range mapped page by page is the value-level range mapping |
| GuestMemory.Memory.ProtUserViews | native/core/vm.c:138-161 | the user views changed are exactly those the reverse map names for the pages, batched into runs |
| GuestMemory.Memory.ProtViews | native/core/vm.c:138-161 | both windows and the user views of exactly the range get the protection |
| GuestMemory.Memory.ProtectPages | native/core/vm.c:163-204 | a range with no-access holes is protected everywhere but in the holes |
| GuestMemory.Memory.ReopenPages | native/core/vm.c:206-243 | access given back restores each page to what tracking wants of it |
| GuestMemory.Memory.NoAccess | native/core/vm.c:206-243 | no-access on closes every view of the range; off gives back what tracking allows |
| GuestMemory.Memory.Unmap | native/core/vm.c:255-270 | an unmapped page has no entry, no view and, if it was its page's address, no reverse entry |
| GuestMemory.Memory.AllocPhysEx | native/core/vm.c:290-335 | the lowest or the highest wholly free aligned window is marked used; none is returned exactly when there is none, memory untouched |
| GuestMemory.Memory.FindFree | native/core/vm.c:290-335 | the skipping search finds the same window as trying every aligned one |
| GuestMemory.Memory.FreePhys | native/core/vm.c:339-359 | a freed page is free and unpinned, nothing else changes |
| GuestMemory.Memory.Pin | native/core/vm.c:361-376 | the pin byte keeps the known flag beside a lock count that saturates |
| GuestMemory.Memory.RelocatePage | native/core/vm.c:405-426 | copying through the window, remapping and re-tracking is one atomic move, whatever faults on the way |
| GuestMemory.Memory.AllocPhysCompact | native/core/vm.c:428-479 | of the windows that can be cleared with room for what is moved, the one with the fewest moves, highest of equals; failure leaves memory as it was to the guest |
| GuestMemory.Memory.HighestClearable | native/core/vm.c:491-523 | the skipping search returns the highest window with no used page that must stay; the pages it looks at strictly descend, so none is looked at twice |
| GuestMemory.Memory.AllocPhysTop | native/core/vm.c:491-561 | returns that window cleared and used, memory meaning the same; without no-access pages it fails only when there is none or it lacks room outside it |
| GuestMemory.Memory.SmallestRun | native/core/vm.c:579-599 | the smallest free run that is long enough, the highest of equals, or none when no run is |
| GuestMemory.Memory.AllocPhys | native/core/vm.c:607-620 | the top end of the best-fitting run is marked used and nothing else; none is returned only when no window is free |
| GuestMemory.Memory.AllocPhysHigh | native/core/vm.c:626-631 | with no page closed: a block below the reserve whenever one can be made there, else anywhere, and none only when neither can be; memory means the same either way |
| GuestMemory.Memory.TopRun | native/core/vm.c:683-738 | the next piece ends at the highest free page below the reserve, else in it, and runs down to what is wanted or a used page; missing only when every page is used |
| GuestMemory.Memory.AllocAt | native/core/vm.c:683-738 | succeeds exactly when enough pages are free; then exactly the range is newly mapped, whatever was mapped there, and reads zeros; otherwise memory is as it was but for the pages of the range it had taken, which are unmapped; tracking stays consistent either way |
| Relocation.RelocateKeepsMeaning | native/core/vm.c:405-426 | one move keeps every mapped address and its bytes, injective mappings, what cannot move and the count of used pages |
| Relocation.SameMeaningTransitive | native/core/vm.c:428-561 | meaning kept by each of several moves is kept by all of them, so also on a failure after some |
| Relocation.RelocateKeepsMovable | native/core/vm.c:382-426 | a move makes no other page movable or fixed |
| GuestState.MovableExactly | native/core/vm.c:378-395 | a page can be moved exactly where some address maps it and no lock, no mark and no closed view holds it, and takes one exactly where it is neither used nor closed |
| Placement.PlacedMeans | native/core/vm.c:428-561 | a block made by moving pages: every address reads as before, from outside the block, mappings injective with rmap as inverse, pinned and closed pages where they were, and as many more pages used as the block has |
| Placement.CopyThroughWindow | native/core/vm.c:405-426 | a copy that faults in the window ends, both pages reported, as a copy past the tracking would |
| Placement.ClearOne | native/core/vm.c:428-561 | one page moved out of the window keeps the room count and the meaning of memory |
| Placement.BelowReserveIs | native/core/vm.c:622-631 | the windows of the two requests are all that end below the reserve, where RAM is larger than it, and all in RAM |
| Windows.WindowsInBytes | native/core/vm.c:290-302 | page windows are the aligned byte blocks inside the limits when the rounding does not wrap |
| Windows.NextMultiple | native/core/vm.c:290-335 | the window tried after a used page is the next aligned one past it |
| Windows.NoStretchNoWindow | native/core/vm.c:579-599 | where every free run is too short no window of the request is free |
| Backing.MapRangeKeeps | native/core/vm.c:683-738 | mapping pages no address maps adds exactly those mappings and keeps tracking consistent |
| Backing.GrownIsBacked | native/core/vm.c:683-738 | all pieces together: exactly the range is newly mapped and reads zeros, and no other mapping or byte changed |
| Backing.UndoneIsRestored | native/core/vm.c:720-738 | the rollback ends with page_used as before the call and pte as before but for the pages given up |
| Backing.RestoredMappings | native/core/vm.c:720-738 | pte is restored exactly when the pages given up were not mapped before |
| Backing.RestoredReverseMap | native/core/vm.c:255-270 | rmap is restored exactly when no free page had a stale entry |
| Backing.StaleEntryIsLost | native/core/vm.c:255-270 | operations from boot leave a stale entry on a free page, and any rollback loses it |
| GuestMemory.Memory.ProtectRuns | native/hle/dirty.c:119-138 | clearing a range marks exactly its pages clean and protects them, run by run |
| GuestMemory.Memory.HdirtyTake | native/hle/dirty.c:141-154 | reported writes of the range are returned once and forgotten |
| GuestMemory.Memory.TestAndClear | native/hle/dirty.c:156-163 | says whether any page of the range was written, and leaves all of them clean |
| GuestMemory.Memory.Rearm | native/hle/dirty.c:168-180 | protects again while keeping what was written known |
| GuestMemory.Memory.Landed | native/hle/dirty.c:256-268 | data that landed marks clean pages written without opening them |
| GuestMemory.Memory.SetDirty | native/hle/dirty.c:240-251 | a host write marks the range written |
| GuestMemory.Memory.VaStore | native/hle/dirty.c:372-401 | a host store through a user address leaves the page written and its views open |
| GuestMemory.Memory.HandleFault | native/hle/dirty.c:444-501 | a fault opens no-access pages or the one view stored through, and marks the page written |
| GuestMemory.Memory.GuestStore | native/hle/dirty.c:444-501 | a store run again after each fault goes through, whatever the protection |
| Tracking.WritesAreReported | native/hle/dirty.c:93-294 | over any run of stores, host writes, re-arms, queries, no-access, maps, unmaps and moves: clean pages have no writable view, untracked ones all of them, and a store since the last query is always reported |
| Tracking.ReportsAreExact | native/hle/dirty.c:93-294 | over the same runs a page that was queried once is reported exactly while it was written since it was last taken as clean |
| Tracking.QuietQueryIsNo | native/hle/dirty.c:168-180 | a query after a query, with only re-arms, access given and taken, maps, unmaps, claims and frees between, answers no |
| Tracking.UnmappedIsClosed | native/core/vm.c:255-270 | over the same runs a user address that maps no page cannot be read or written |
| Tracking.ApplyDoes | native/hle/dirty.c:93-294 | every operation does what it is for: stores, host and device writes put their bytes and are reported, a re-arm or a query leaves every view of its pages protected, the one keeping and the other forgetting what was written, and moves keep memory's meaning |
| Tracking.StoreGoesThrough | native/hle/dirty.c:444-501 | a tracked store always ends, changes only its page, and leaves it reported |
| Tracking.RelocateKeepsTracking | native/core/vm.c:405-426 | a move keeps tracking consistent and reports both pages |
| Tracking.MapKeepsExactlyWithoutAlias | native/core/vm.c:91-128 | a mapping keeps tracking consistent exactly when no other user address maps the page |
| Tracking.AliasLosesWrites | native/core/vm.c:91-128 | wherever a page is mapped a second time, a run of queries and stores follows whose last store through the first address is not reported |
| Tracking.OpenViewKeeps | native/hle/dirty.c:197-205 | opening only the view stored through keeps tracking consistent |
| Tracking.SetAccessKeeps | native/core/vm.c:206-243 | no-access on and off keep tracking consistent |
| IdleWait.NoWakeupIsLost | native/core/irq.c:175-279 | under any interleaving, while the CPU sleeps with an enabled line up or work posted some thread has its broadcast ahead of it |
| IdleWait.SleepWithCauseEnds | native/core/irq.c:429-451 | from any such state at most six device steps end the sleep, with no help from the time-out |
| IdleWait.NextKeepsInv | native/core/irq.c:175-279 | every single load, store, lock and broadcast keeps the protocol's invariant |
| IdleWait.CallsTakeEffect | native/core/irq.c:175-279 | between a device thread's call and its return its line went up or down, was unmasked or masked, or work was posted; and it still is where no opposite call was under way or made since |
| IdleWait.FactStays | native/core/irq.c:175-279 | a line up, down, unmasked or masked, and work posted or taken, stays so under any interleaving until a call for the opposite |
| IdleWait.CallEndsWait | native/core/irq.c:429-451 | once a call that completes a cause has returned, the CPU is out of the wait loop or at most 15 steps from leaving it, at most 17 from being back, and past its checks it does not sleep again |
| IdleWait.StaysAwake | native/core/irq.c:429-451 | while a cause stands no interleaving takes the CPU past its checks into the sleep |
| IdleWait.WakesOnlyForCause | native/core/irq.c:175-279 | raising a line broadcasts only if the call itself took it up and it was unmasked, unmasking only if it was up, lowering and masking never, and none but where the CPU's flag was up |
| IdleWait.CallsReturn | native/core/irq.c:175-279 | from every reachable state a device thread's call returns in at most 11 steps of its own, of the CPU and of the mutex's holder |
| IdleWait.LeavesOnlyForCause | native/core/irq.c:443-451 | without its time-out the CPU leaves the wait only having seen, since it entered, a line that was up and unmasked, or work |
| IdleWait.TimeOutEndsWait | native/core/irq.c:443-451 | after its time-out at most five steps bring the CPU back from the wait |
| IdleWait.IdleSleeps | native/core/irq.c:429-451 | a CPU that goes idle with nothing to do and no thread in the way sleeps, the mutex free and its flag up |
| Reads.ReadLands | native/kernel/io.c:894-927 | a completed read lands: its buffer addresses still map the pages written and hold the file's bytes, exactly those pages become reported written, and the pins are given back |
| Reads.ReportMarks | native/kernel/io.c:894-927 | the report of a read marks exactly its pages written |
| Reads.ReadsAreConserved | native/kernel/io.c:751-944 | over any run queued, read and done jobs are the busy ones, at most 64, each in one place and completed in order; no buffer page in flight can move; and every read lands when it completes |
| Reads.NextKeepsInv | native/kernel/io.c:751-944 | every step of the reader, the allocator and the title keeps that |
| Reads.EveryReadCompletes | native/kernel/io.c:751-944 | from every state the reader's steps and polls complete all that is queued, in as many steps as there are pieces and four for each read |
| Reads.StepsLessWork | native/kernel/io.c:751-944 | each of their steps leaves less to do |
| Reads.FailsOnlyIfReadFails | native/kernel/io.c:751-786 | a read is reported failed only where reading the file failed |
| GuestState.PinIsFlagAndCount | native/core/vm.c:361-376 | the pin byte's flag is set once asked for, and its count goes up to 127 and down to 0 one at a time |
| Reads.LockRestoredBelowLimit | native/core/vm.c:361-376 | a lock and an unlock give the pin back exactly below the saturated count |
| Reads.PinBufferUp | native/kernel/io.c:792-800 | pinning adds one lock for each piece on a page |
| Reads.PinBufferDown | native/kernel/io.c:792-800 | unpinning takes the same ones away |
| Reads.Ring.Submit | native/kernel/io.c:805-892 | a job joins the back of the queue unless 64 are busy |
| Reads.Ring.Take | native/kernel/io.c:751-786 | the reader takes the oldest job |
| Reads.Ring.Finish | native/kernel/io.c:751-786 | the job taken joins the done ones, whose array has room |
| Reads.Ring.Poll | native/kernel/io.c:929-944 | all that is done is taken at once and is busy no more |
| Dispatcher.OnePassSettles | native/kernel/ke.c:445-469 | after one pass no thread is left waiting for what it could have |
| Dispatcher.TakesAllOrNone | native/kernel/ke.c:395-443 | the status says what a wait was given: all of a wait-all's objects or one of a wait-any's, each signaled for it and given once: a notification as it was, a synchronization event down, a semaphore one less, a mutant one less and the thread's; all others are as they were |
| Dispatcher.TakenInRangeExactly | native/kernel/ke.c:430-443 | what a wait-all takes leaves every semaphore in range exactly when none is named more often than it has counts |
| Dispatcher.DuplicateWaitAllOverdraws | native/kernel/ke.c:430-443 | a wait-all on one semaphore twice, with one count, drives it below zero |
| Dispatcher.ReleaseInRangeExactly | native/kernel/ke.c:742-754 | a release keeps the count between 0 and the limit exactly while the sum fits 31 bits |
| Dispatcher.RunsStaySettled | native/kernel/ke.c:445-815 | over any run of events, semaphores, mutants, waits, ticks and thread switches no thread starves and counts stay in range |
| Dispatcher.NextKeepsInv | native/kernel/ke.c:523-574 | each of those operations keeps it |
| Dispatcher.SwitchKeeps | native/kernel/ps.c:347-484 | running another ready thread keeps it |
| Dispatcher.Kernel.SatisfiedBy | native/kernel/ke.c:412-428 | the loops find the first signaled object, or that all are |
| Dispatcher.Kernel.TakeFor | native/kernel/ke.c:430-443 | the loop acquires what satisfied the wait, one object after the other, and hands over the section it names |
| Dispatcher.Kernel.CheckWaits | native/kernel/ke.c:445-469 | wakes in one pass every thread that can be, and returns the earliest deadline left |
| Dispatcher.Kernel.Set | native/kernel/ke.c:628-639 | an event set and its pass |
| Dispatcher.Kernel.Release | native/kernel/ke.c:742-754 | a release within the limit and its pass; refused, nothing changes |
| Dispatcher.Kernel.Return | native/kernel/ke.c:806-815 | a mutant free again loses its owner and is passed on |
| Dispatcher.Kernel.Wait | native/kernel/ke.c:523-574 | the objects at once, a poll's result, or the thread waiting with its deadline |
| Grants.OpGives | native/kernel/ke.c:395-815 | every operation turns its own object and gives each object away as often as statuses say, never more than there is; a reset or a pulse leaves it unsignaled |
| Grants.CountsAreConserved | native/kernel/ke.c:742-754 | over any run a semaphore's count is what it was and what was released within its limit, less one for each wait that ended with it |
| Grants.EventsWakeOnce | native/kernel/ke.c:390-409 | over any run a synchronization event ends no more waits than it was signaled |
| Grants.NotificationStays | native/kernel/ke.c:628-678 | over any run a notification event is what its last set, reset or pulse says, however many waits end |
| Grants.SignalWakes | native/kernel/ke.c:445-483 | setting or pulsing an event ends the wait of every thread waiting for it, or of one where it is a synchronization event |
| Grants.OpEndsWaits | native/kernel/ke.c:445-469 | a wait ends only where the thread is given what it waits for, or at its deadline where it cannot be, with a time-out's status or a delay's; and every pass ends it there |
| Grants.WaitBegins | native/kernel/ke.c:523-574 | a wait takes its objects and section at once where it can; else a poll or an empty wait has its status at once, and any other wait waits, for its deadline |
| Grants.NextRunsOne | native/kernel/ps.c:347-484 | one thread runs at most, and the one switched to does |
| Mutants.MutantsAreSafe | native/kernel/ke.c:382-443 | over any run in which only holders return a mutant: at most one thread holds it, it names that thread as owner with its holds as counts below free, and it is free without an owner exactly where no one holds it |
| Mutants.NextAccounts | native/kernel/ke.c:382-815 | every operation keeps that account of holds |
| Mutants.InitializedIsHeld | native/kernel/ke.c:800-804 | a new mutant is free, or held once by the running thread |
| Mutants.WaitForMutant | native/kernel/ke.c:523-574 | a wait for a mutant goes on at once, with one hold more, exactly where no other thread holds it |
| Mutants.LastReturnPassesOn | native/kernel/ke.c:806-815 | its last return gives it to a thread that waits for it, where one does |
| Mutants.ReturnKeepsMutantExactly | native/kernel/ke.c:806-815 | a return leaves the mutant held by its owner, or free without one, exactly where some thread holds it |
| Mutants.FreeReturnLetsTwoIn | native/kernel/ke.c:806-815 | after a return of a free mutant two threads' waits for it end at once |
| Handover.PassServes | native/kernel/ke.c:445-469 | one signal serves exactly as many of an object's waiters as it has units, in order, and no one else changes |
| Handover.PassTakesSection | native/kernel/ke.c:430-443 | with one unit the section goes to the first waiter |
| Handover.OperationAvoids | native/kernel/ke.c:445-469 | operations on other objects leave an unsignaled object and its waiters alone |
| Handover.WaitersAfterPass | native/kernel/ke.c:445-469 | the waiters left are the ones not served |
| CriticalSection.SectionsAreSafe | native/kernel/ke.c:992-1054 | over all runs of enter, try and leave by owners among other operations: one holder, named by the owner word with its holds as recursion, LockCount + 1 is recursion plus waiters, the event stays unsignaled |
| CriticalSection.HandOver | native/kernel/ke.c:1020-1035 | the last leave with waiters makes the first of them the owner, once, and wakes only it |
| CriticalSection.EnterKeeps | native/kernel/ke.c:1002-1017 | entering, blocked or not, keeps that |
| CriticalSection.TryKeeps | native/kernel/ke.c:1038-1054 | a try succeeds exactly where the section is free or one's own |
| CriticalSection.LeaveKeeps | native/kernel/ke.c:1020-1035 | leaving keeps it |
| CriticalSection.EnterAsks | native/kernel/ke.c:1002-1017 | entering has the section once more where no other thread holds it, and else waits for it; nobody else's holds change |
| CriticalSection.TryAsks | native/kernel/ke.c:1038-1054 | a try has it exactly where no other thread holds it, and else changes nothing |
| CriticalSection.LeavePassesOn | native/kernel/ke.c:1020-1035 | a leave takes one hold; where that was the last and threads wait, the first of them has the section and is ready |
| CriticalSection.OtherHolds | native/kernel/ke.c:445-815 | no other operation changes anyone's holds |
| CriticalSection.EnterSection | native/kernel/ke.c:1002-1017 | updating LockCount, RecursionCount and OwningThread one at a time and waiting gives the state the safety theorem is about |
| CriticalSection.LeaveSection | native/kernel/ke.c:1020-1035 | updating the words one at a time and setting the event only where threads wait gives that state |
| CriticalSection.TryEnterSection | native/kernel/ke.c:1038-1054 | the words change, and true is returned, only where the section is free or the caller's |
| FastPath.EnterIsKernelEnter | native/kernel/kernel.c:131-144 | the installed enter sequence, decoded from its bytes and run through, ends as the kernel function for every content of the section |
| FastPath.LeaveIsKernelLeaveExactly | native/kernel/kernel.c:145-159 | the installed leave sequence ends as the kernel function for every content but one: the last leave at the most negative LockCount |
| FastPath.KernelEnterIsEnter | native/kernel/ke.c:1002-1017 | the enter on 32-bit words is the section operation while its counts do not wrap; where it blocks, that is the wait for the section with LockCount raised |
| FastPath.KernelLeaveIsLeave | native/kernel/ke.c:1020-1035 | the leave on 32-bit words is the section operation, with the pass of its event where it signals |
| RwLock.LocksAreSafe | native/kernel/ke.c:1056-1145 | over all runs: a writer is alone, LockCount + 1 counts holders and waiters, no count is negative, readers wait behind readers only with a writer waiting, and no one waits for no one |
| RwLock.ReaderLeaves | native/kernel/ke.c:1119-1145 | a reader's release keeps that: others stay, nobody is left, or one writer is let in |
| RwLock.WriterLeaves | native/kernel/ke.c:1119-1145 | a writer's release keeps it: every waiting reader is let in, else a writer |
| RwLock.ExclusiveKeeps | native/kernel/ke.c:1088-1097 | acquiring for writing keeps it |
| RwLock.SharedKeeps | native/kernel/ke.c:1101-1115 | acquiring for reading keeps it |
| RwLock.ExclusiveAsks | native/kernel/ke.c:1088-1097 | asking for the lock for writing has it at once where it is free, and else waits; nobody else's holds change |
| RwLock.SharedAsks | native/kernel/ke.c:1101-1115 | asking for reading has it at once where it is free, or readers have it and no writer waits; and else waits |
| RwLock.LeaveAdmits | native/kernel/ke.c:1119-1145 | a release takes one hold from its caller: other readers go on; a writer lets in every reader that waits, or else a writer; the last reader lets in a writer |
| RwLock.Serve | native/kernel/ke.c:445-469 | signaling for some waiters of one object wakes exactly them and leaves the other's |
| RwLock.Erwlock.constructor | native/kernel/ke.c:1075-1085 | the lock starts free with its event and semaphore unsignaled |
| RwLock.Erwlock.TakeExclusive | native/kernel/ke.c:1088-1097 | the counts updated one at a time, and the wait on the writer event where the lock was held, give the state the safety theorem is about |
| RwLock.Erwlock.TakeShared | native/kernel/ke.c:1101-1115 | the counts updated one at a time, and the wait on the reader semaphore behind a writer, give that state |
| RwLock.Erwlock.Drop | native/kernel/ke.c:1119-1145 | the branches over the counts, and the one signal they end in, give that state |
| Apc.ApcsAreDeliveredOnce | native/kernel/apc.c:44-244 | over any run: the queue is what was queued and not started, in order; a started APC has had its kernel routine's turn and then its normal routine's, once each, but for what chains under way owe; a KAPC is Inserted exactly while it is queued, once |
| Apc.ChainsResume | native/kernel/apc.c:112-187 | whatever waits nest in a chain, at its end the thread is back at the esp and eip of the wait that began it and the interrupted chains are where they were |
| Apc.StepMoves | native/kernel/apc.c:112-187 | one step leaves a thread's chains; pushes one for the wait's return address, or goes on in the innermost, the thread then at the routine due with its frame below the chain's esp; or pops it back to where its wait was |
| Apc.QueueingEndsWait | native/kernel/apc.c:189-210 | an APC queued to a thread in an alertable wait ends the wait wherever a chain can start: the thread is in the due routine, or its wait returns alerted; to any other thread it joins the back of the queue |
| Apc.CallsAreDue | native/kernel/apc.c:50-98 | the routine called is the one due, with what the KAPC says at that moment |
| Apc.TurnsAreDue | native/kernel/apc.c:50-98 | every turn a delivery takes is its APC's, by the words it was queued with or its KAPC's at that moment; a routine is passed over exactly where there is none, and the first there is, is called |
| Apc.InitializedIsCalled | native/kernel/apc.c:189-244 | a KAPC initialized and inserted for a thread in an alertable wait puts the thread in its kernel routine with where its words are, or without one in its normal routine with its context and arguments |
| Apc.NormalIsCalled | native/kernel/apc.c:76-94 | after its kernel routine its normal routine is called with what the guest made of its words |
| Apc.NextCallKeeps | native/kernel/apc.c:50-98 | finding the next call keeps the account of turns |
| Apc.NextKeeps | native/kernel/apc.c:189-262 | every queueing, wait, wake, return and guest write keeps the account and the Inserted bytes |
| Apc.InitializeKeepsExactly | native/kernel/apc.c:213-225 | initializing a KAPC keeps the account of the Inserted bytes exactly when it is not queued |
| Apc.ThreadApcs.NextTurn | native/kernel/apc.c:50-98 | the loop is the recursive search for the next call |
| Apc.ThreadApcs.StartChain | native/kernel/apc.c:114-124 | a running chain is kept under the new one, four at most |
| Apc.ThreadApcs.EndChain | native/kernel/apc.c:127-130 | the chain kept last goes on |
| Apc.ThreadApcs.Begin | native/kernel/apc.c:132-147 | a wait's APCs begin in its place, or it has none to run |
| Apc.ThreadApcs.BeginWaiting | native/kernel/apc.c:150-166 | a blocked wait ends in its APCs |
| Apc.ThreadApcs.Return | native/kernel/apc.c:168-187 | the next call, or back from the wait |
| Apc.ThreadApcs.Add | native/kernel/apc.c:189-210 | joins the back of the queue and ends an alertable wait |
| Apc.ThreadApcs.Insert | native/kernel/apc.c:228-244 | queues a KAPC unless it is queued already |
| TransferBuffer.ShortTransferExactly | native/dev/ohci.c:298-307 | a short transfer leaves the bytes not moved, byte for byte, across the crossing too, but in one case given exactly |
| TransferBuffer.FullTransfer | native/dev/ohci.c:386-399 | all moved leaves an empty buffer |
| TransferBuffer.AddressesDiffer | native/dev/ohci.c:298-307 | a buffer names each byte of memory once |
| TransferBuffer.BufferRuns | native/dev/ohci.c:298-325 | the buffer is CBP through BE byte after byte, but for one step from the end of CBP's page to the start of BE's |
| TransferBuffer.EmptyExactly | native/dev/ohci.c:298-307 | the buffer is empty exactly where CBP is 0 or one past BE |
| TransferBuffer.ScatterWrites | native/dev/ohci.c:309-325 | a transfer to the buffer leaves byte i of the data at the buffer's i-th address, in each of its two stretches that is in RAM, and every other byte as it was |
| TransferBuffer.GatherReads | native/dev/ohci.c:309-325 | byte i of a transfer from it is the byte at the buffer's i-th address where that stretch is in RAM |
| TransferBuffer.GatherScatter | native/dev/ohci.c:309-325 | what was put in the buffer is read back |
| TransferBuffer.TdCopy | native/dev/ohci.c:309-325 | the two copies are those transfers, each skipped where it is outside RAM |
| Ohci.FrameConservesTds | native/dev/ohci.c:328-520 | what a frame retires leaves its EDs' heads once for the done list, the last first; all other lists are as they were |
| Ohci.FrameHandsBack | native/dev/ohci.c:504-517 | the list written to the HCCA is exactly the TDs retired since the last write-back, in reverse order |
| Ohci.RetiredOnce | native/dev/ohci.c:421-433 | each ED's list is what was retired from it followed by what is left |
| Ohci.ListsStayWhole | native/dev/ohci.c:438-520 | over any run of frames and of a driver appending TDs and taking done ones, the lists stay linked and apart |
| Ohci.RetiredTdLeavesRest | native/dev/ohci.c:386-420 | a retired TD's CBP and condition say what did not move, and a TD in error halts its ED |
| Ohci.DataArrives | native/dev/ohci.c:386-399 | what an IN packet's device sent is in the TD's buffer, byte for byte, and the rest of RAM as it was; any other packet leaves RAM alone |
| OhciFrames.RetiredSays | native/dev/ohci.c:386-435 | a good packet flips the TD's toggle and gives it to its ED, a fault leaves both and halts the ED with the condition of its kind; the done list waits no longer than the TD asks, and not at all after a fault |
| OhciFrames.NotRetired | native/dev/ohci.c:328-372 | a service without an answer, or of a TD it cannot take, changes nothing |
| OhciFrames.DirectionIs | native/dev/ohci.c:337-352 | a packet goes the way its ED says, or its TD where the ED leaves it open |
| OhciFrames.FrameServes | native/dev/ohci.c:438-502 | where no device has its endpoint wait, a frame leaves every ED of the lists it walks halted, skipped or empty, or has retired its share of TDs: one on the periodic list, 64 on the others |
| OhciFrames.ListIsActiveExactly | native/dev/ohci.c:438-463 | a list counts as filled exactly where an ED the walk comes to had TDs queued |
| OhciFrames.FilledExactly | native/dev/ohci.c:487-502 | the bit that says the control list is filled stays until a frame walks the list and finds no TD queued; the bulk list's likewise |
| OhciFrames.WaitsItsDelay | native/dev/ohci.c:504-517 | a done list whose delay is d goes back in the d+1st frame that retires nothing and not before; with 7 it does not go back |
| OhciFrames.WaitsForDriver | native/dev/ohci.c:504-517 | while the driver has not taken the last list, the done list stays |
| OhciFrames.NeedsHcca | native/dev/ohci.c:504-517 | with no HCCA in RAM no done list goes back |
| OhciFrames.TakenThenGoesBack | native/dev/ohci.c:504-517 | once the driver takes the last list, the one that waited goes back in the next frame that retires nothing |
| OhciFrames.RequestIsServed | native/dev/ohci.c:438-502 | a TD the driver appends to an ED it has going, on a list it says is filled, is retired in the next frame in which no device has its endpoint wait, but where a fault halted the ED or 64 TDs before it were |
| Ohci.ServiceTdRetires | native/dev/ohci.c:328-435 | a service retires the head or leaves every descriptor |
| Ohci.AppendKeeps | native/dev/ohci.c:438-463 | a TD appended at the tail extends its ED's list by itself, and every list stays linked and apart |
| Ohci.Controller.Service | native/dev/ohci.c:328-435 | the TD and ED words, the done head and the delay updated in place are those of one retirement, or nothing is but the answer consumed; the device of a SETUP or OUT packet is sent the TD's buffer, and what an IN packet brought is in it, byte for byte |
| Ohci.Controller.Visit | native/dev/ohci.c:447-459 | at most 64 TDs, one for a periodic endpoint |
| Ohci.Controller.WalkList | native/dev/ohci.c:438-463 | at most 256 EDs, each visited as it stands |
| Ohci.Controller.Tick | native/dev/ohci.c:465-520 | the enabled lists and then the write-back |
| FreeList.CanonicalIsUnique | native/kernel/pool.c:1-12 | a set of free bytes has one canonical list: sorted, apart, not touching |
| FreeList.TakeFromMeans | native/kernel/pool.c:37-53 | a block off a range takes exactly its bytes from the set and keeps the list canonical |
| FreeList.FirstFitIs | native/kernel/pool.c:37-53 | the range found holds the request and no range before it does; where none does there is none |
| FreeList.PutCanonical | native/kernel/pool.c:62-87 | giving a block back keeps the list canonical, joined to its neighbours |
| FreeList.PutCovers | native/kernel/pool.c:62-87 | giving a block back adds exactly its bytes to the free set |
| FreeList.PutTotal | native/kernel/pool.c:62-87 | giving a block back adds its size to the free total, or nothing where the full list loses it |
| FreeList.SizesFitExactly | native/kernel/pool.c:24-39 | the rounded block and chunk hold the request exactly for requests up to 0xFFFF0000 bytes |
| FreeList.HugeRequestTakesNothing | native/kernel/pool.c:37-53 | a request that wraps to 0 is given a range that stays free |
| Pool.TakeKeepsBooks | native/kernel/pool.c:37-53 | a block given out is disjoint from every other, and free, live and lost bytes still sum to the pool |
| Pool.FreeKeepsBooks | native/kernel/pool.c:62-87 | after a block is given back the others are disjoint and free, live and lost bytes still sum to the pool |
| Pool.GrowKeepsBooks | native/kernel/pool.c:24-35 | after a chunk of pages the pool did not have joins, the sum is the larger pool's |
| Pool.PlacedLeavesHeld | native/kernel/pool.c:24-35 | making a contiguous block leaves the pool's pages and their bytes |
| Pool.KernelPool.constructor | native/kernel/pool.c:14-21 | the pool starts as one zeroed free range |
| Pool.KernelPool.Alloc | native/kernel/pool.c:37-60 | a zeroed block of the first range that holds it, growing where none does; live blocks keep their bytes; the recursion ends because free pages decrease |
| Pool.KernelPool.Grow | native/kernel/pool.c:24-35 | grown, the pool has a chunk more and memory fewer free pages; live blocks keep their bytes |
| Pool.KernelPool.FreeBlock | native/kernel/pool.c:62-87 | the block's bytes are free again and nothing else is, or it is lost when the list is full |
| Pool.KernelPool.Insert | native/kernel/pool.c:62-87 | the array with its shifts is the list with the block put in |
| Mods.StatesGetTheirPatches | native/core/mods.c:427-480 | a savestate with layered patches has after loading the disc's bytes with exactly the patches on now, and outside them only zeros past the disc's headers |
| Mods.StatesGetTheirPatchesOfTheDisc | native/core/mods.c:370-480 | so it is wherever the disc's file is zero past the disc's own headers, when the first patch over them, of now and of the savestate, was recorded over the disc's word or there is none |
| Mods.UndoRestores | native/core/mods.c:438-447 | layered patches taken back in reverse all match and leave the disc's bytes, overlapping ones included |
| Mods.RedoApplies | native/core/mods.c:468-473 | put in in order they all match and leave the layered bytes |
| Mods.FlipOnlyOver | native/core/mods.c:334-339 | a patch goes in, or out, exactly where memory holds the other's bytes, then holds its own there, and nothing else changes |
| Mods.ClearIsDiscExactly | native/core/mods.c:410-425 | clearing leaves the disc's bytes exactly where the disc has zeros from there on |
| Mods.ClearedExactly | native/core/mods.c:410-425 | clearing zeroes the header page from the headers on, where they end inside it and it is mapped, and nothing else |
| Mods.SameModsLeaveMemory | native/core/mods.c:427-436 | a savestate with the patches of now is left as it is |
| Mods.RecordKeepsLayers | native/core/mods.c:252-303 | however mods are listed, the patches of those on are recorded layered |
| Mods.RecordsOver | native/core/mods.c:252-303 | a line of a mod that is on is recorded exactly where the disc has, with the earlier ones, the bytes it says, over those; one of a mod that is off over the disc's own |
| Mods.HeadersAreTheDiscs | native/core/mods.c:370-385 | the headers found are the disc's when no earlier patch that is on touches them |
| Mods.HeadersAreTheDiscsExactly | native/core/mods.c:370-385 | the headers found are the disc's exactly when the first patch over them was recorded over the disc's four bytes |
| Mods.PartialPatchMisreadsHeaders | native/core/mods.c:370-385 | after a patch over one byte of them, the headers found are the disc's exactly when that byte is |
| Mods.Loader.AddPatch | native/core/mods.c:252-303 | a patch is recorded over the bytes the disc has with the earlier ones |
| Mods.Loader.FlipOne | native/core/mods.c:334-339 | a patch goes in or out only where memory holds the other's bytes |
| Mods.Loader.SameAsNow | native/core/mods.c:349-366 | the two-index loop compares exactly the wanted patches of both lists |
| Mods.Loader.HeadersOf | native/core/mods.c:370-385 | the first patch over the headers gives them |
| Mods.Loader.ClearPage | native/core/mods.c:410-425 | the header page is zero from the headers on |
| Mods.Loader.Loaded | native/core/mods.c:427-480 | the loops in place are undoing, clearing and redoing |
| Cheats.FlatIsNested | native/core/cheats.c:352-412 | for any cheat whose lines were all accepted, the flat run gives the memory, bytes written and misses of the nested blocks |
| Cheats.BlockRuns | native/core/cheats.c:352-412 | a block's lines run as the block where lines run, and do nothing elsewhere, several elses and unclosed ifs included |
| Cheats.ParseIsNesting | native/core/cheats.c:197-265 | the nested blocks, written out, are the lines |
| Cheats.AddedExactly | native/core/cheats.c:216-264 | whatever the lines of the other cheats, a line keeps the kept lines ones the run's stack fits, and the depth theirs, exactly when it is not rejected after it moved the depth |
| Cheats.CleanIsAccepted | native/core/cheats.c:216-264 | a whole cheat without such a line, whatever else of it is refused, keeps lines whose every end has its if and whose ifs fit the stack |
| Cheats.RightIsKept | native/core/cheats.c:216-264 | a cheat whose lines are all right, and for which the table has room, is kept whole |
| Cheats.RejectedEndOverflows | native/core/cheats.c:216-264 | with eight ifs open, a rejected end lets in a ninth if that the run's stack of 8 has no room for |
| Cheats.RejectedIfStaysOpen | native/core/cheats.c:253-264 | an if rejected for extra text lets a later end in without it, and the run's stack still has room |
| Cheats.FloatsCompareByBits | native/core/cheats.c:326-338 | floats compare as sign and magnitude of their bits, both zeros alike |
| Cheats.PutIsRead | native/core/cheats.c:387-407 | a value written is read back where its bytes are different ones of RAM |
| Cheats.WriteWrites | native/core/cheats.c:387-407 | a write leaves its value's bytes, lowest first, where its address leads, and every other byte; it counts bytes that were not there yet, and a miss where the address leads nowhere |
| Cheats.LoadStore | native/core/cheats.c:317-324 | a number written in n bytes is read back modulo 256^n |
| Cheats.StoreByte | native/core/cheats.c:391-394 | byte k written is v / 256^k modulo 256 |
| Cheats.ResolveIsPath | native/core/cheats.c:299-315 | an address leads to y exactly where following its pointers, each not null, with its offset in 32 bits, ends at y |
| Cheats.TargetIsPath | native/core/cheats.c:360-407 | a line finds bytes exactly where its pointers lead to a place with width bytes mapped |
| Cheats.ByteAt | native/core/cheats.c:387-407 | byte k is at the k-th address on, in 32 bits |
| Cheats.IfTests | native/core/cheats.c:360-375 | an if holds exactly where its address leads to bytes whose number compares; elsewhere it is a miss |
| Cheats.IntsCompareInOrder | native/core/cheats.c:341-349 | exactly one of less, equal and greater holds; the others are their complements |
| Cheats.MaskHeldByBits | native/core/cheats.c:341-349 | a mask compares as held exactly where every bit of it is set |
| Cheats.FloatsCompareInOrder | native/core/cheats.c:326-338 | so do floats, by the order of their bits; a NaN is unequal to everything and nothing else |
| Cheats.ExactlyOneRuns | native/core/cheats.c:352-412 | of an if's lines and its else's exactly the ones it chooses run, whatever ifs are in them, then the lines after its end |
| Cheats.Cheat.AddLine | native/core/cheats.c:216-264 | the depth moves as the lines are taken, before the extra text is seen |
| Cheats.Cheat.RunOne | native/core/cheats.c:352-412 | for lines whose ifs fit the stack of 8 the loop keeps inside it; for accepted lines it gives the nested blocks' result |
| Cheats.Guest.Find | native/core/cheats.c:299-315 | the pointers are followed one by one, and a null or unmapped one is a miss |
| Overlay.SealedIsMeant | native/core/xdvdfs.c:263-285 | however it was sorted, the sealed table has at any path the last file added there, else the last folder |
| Overlay.SortedIsUnique | native/core/xdvdfs.c:256-269 | the order is total: there is one way to sort |
| Overlay.CompactHolds | native/core/xdvdfs.c:270-284 | compaction keeps at each path the winner of its entries |
| Overlay.CompactStrict | native/core/xdvdfs.c:270-284 | compaction leaves strictly ordered paths, one entry a path |
| Overlay.WinnerIsLast | native/core/xdvdfs.c:270-284 | the winner is the last file, or the last folder where there is none |
| Overlay.NormIsNormal | native/core/xdvdfs.c:171-193 | every path is keyed with single backslashes inside and none at its ends, and a key is its own key |
| Overlay.ShownIsAsLong | native/core/xdvdfs.c:171-193 | the shown form of a path is its key but for case: as long, with the same slashes |
| Overlay.KeyFoldsCase | native/core/xdvdfs.c:171-193 | paths that differ in case alone have one key, and no key has a capital |
| Overlay.PlainIsShown | native/core/xdvdfs.c:171-193 | a path as the disc has it is shown as it is, and its key is it but for case |
| Overlay.FoldersAreFound | native/core/xdvdfs.c:224-254 | every folder on an added file's way is found, on the disc or among the additions, whatever is added later, and so in the sealed table |
| Overlay.PushedOnly | native/core/xdvdfs.c:224-254 | adding a file adds it first and then folders of its way that are none of the disc's, no other entry |
| Overlay.ReadsAreSlices | native/core/xdvdfs.c:418-433 | any read is a slice of one fixed content |
| Overlay.PiecesAreTheWhole | native/core/xdvdfs.c:418-433 | reading in pieces is reading at once |
| Overlay.LaterPatchesWin | native/core/xdvdfs.c:418-433 | each byte is the last patch's over it |
| Overlay.Table.Push | native/core/xdvdfs.c:204-222 | an entry joins the end, numbered, the array grown where full |
| Overlay.Table.AddFile | native/core/xdvdfs.c:224-254 | the file and its missing folders join, unless the table is sealed |
| Overlay.Table.Seal | native/core/xdvdfs.c:263-285 | sorted and compacted in place, strictly ordered, and with the meant entry at every path |
| Overlay.Table.Find | native/core/xdvdfs.c:287-306 | the binary search finds the entry of the path, or that there is none |
| Overlay.ReadFile | native/core/xdvdfs.c:418-433 | the buffer holds the slice of the patched content, or the read is refused as it runs past the file |
| Vblank.LockConverges | native/dev/nv2a.c:675-694 | whatever the error strictly inside half a period, after 195 vblanks it is under 8 ns and on its side |
| Vblank.VblankNudges | native/dev/nv2a.c:675-694 | a locked vblank is whole periods on but for at most 0.5 ms; the error keeps its sign, never grows, and shrinks from 8 ns on |
| Vblank.LocksExactly | native/dev/nv2a.c:675-686 | vblanks lock exactly where the frame is within a twentieth of one to four of the display's periods and a vsync is recent; elsewhere the next is a frame later |
| Vblank.ErrorAfter | native/dev/nv2a.c:675-694 | the error after any run while vsyncs advance by whole periods |
| Vblank.SettlesWithin | native/dev/nv2a.c:687-693 | any error a display allows is under 8 ns within 195 steps |
| Vblank.WrapHalfIs | native/dev/nv2a.c:638-648 | inside half a period the phase is the distance to the nearest multiple |
| Vblank.PlaceIsFarFromPickups | native/dev/nv2a.c:687-690 | a vblank belongs as far from every pickup as can be, and VSYNC_LEAD before a vsync where none is known |
| Vblank.WrapHalfInRangeExactly | native/dev/nv2a.c:638-648 | the result is in (-pd/2, pd/2] exactly when the period is above 1 and this is not the one phase of an odd period at a negative argument |

## Left out

- mmap, mprotect, memfd and their failures: mapping always succeeds, and permissions are data. So `nc_vm_alloc_at` that returns false because `nc_vm_map` did, without giving back what it claimed, is not modelled.
- Addresses inside a page: guest memory moves, maps and protects whole pages, and user addresses stop at the contiguous window. The loops of the write tracker over byte addresses are loops over pages here.
- `nc_vm_alloc_at` with pa_out, `nc_vm_claim_phys` and the allocator's statistics and logging.
- Alignments that are no power of two, which the source's mask arithmetic does not take either.
- Concurrency inside `vm.c` and `dirty.c`: the re-close loop for a store that raced, the debug watch, the GPU barrier's own policy on a first write, and the emulation of an access next to a no-access page. A stale access is no-access turned off.
- Kernel clocks: time is a parameter of each operation. The poll slice and priorities decide only who runs next, which is any ready thread here.
- Threads that end, that suspend each other, that leave a section or return a mutant they do not hold (but for a free one), or that initialize an object others wait on.
- Instruction-level interleaving of the guest-code critical section: the sequences run uninterrupted.
- The stack bytes of an APC's frame, and `KeTestAlertThread` and `NtUserIoApcDispatcher`, which add no state.
- File lookup, caching, timing and status codes of the reads: a job is its buffer pages, its bytes and its outcome.
- `nc_irq_state_set`, pause and quiesce, and the statistics of interrupts.
- Registers, ports and reset of the OHCI controller; devices are answers to packets, and descriptors are words by address, apart from buffers.
- Savestates from before the MODS section, title updates and their own patches, and the contiguous memory freed when the header page is cleared.
- The lexing of cheat lines (numbers, addresses, comparisons, floats), and cheats turned on and off or run once.
- The disc's own directory tree, host files and their descriptors; a disc is the set of folders it has.
- Measuring the display's period and the presenter's pickup; both are fixed while the vblank locks.
- 64-bit wrap-around of nanosecond times, and 32-bit wrap-around of the recursion, waiter and lock counts past the guards on the calls.
- IdleWait.NextKeepsInv: the functions of `irq.c` are sequences of steps and not methods, since other threads' steps come between them.
- Apc.ThreadApcs.NextTurn: a KAPC's words are a record by address, so KAPCs that overlap in memory are not modelled.
- Dispatcher.Kernel.Wait: an alertable wait that begins in its APCs does not reach its objects; that is the Wait step of `Apc`.
- Cheats.Cheat.RunOne: for lines whose ifs fit the stack of 8; what a write past it does is not modelled.
- Pool.KernelPool.Alloc: for requests up to 0xFFFF0000 bytes; past it the rounding wraps, as `FreeList.SizesFitExactly` says.
- Mods.StatesGetTheirPatches: where the disc's file is zero past the headers found; `Mods.StatesGetTheirPatchesOfTheDisc` is for a file that is zero past its own.
- Vblank.LockConverges: starts strictly inside half a period, and a display of 20 Hz or faster.
