# Operating-systems coursework: verified models

Dafny models of the five programs at the heart of the repository, with proofs about every input, every
interleaving and every run. All sizes (philosophers, meals, TLB slots, frames, threads, pools) are parameters.

- **Dining philosophers** (`Forks`, `BasicPhilosophers`, `AnimatedPhilosophers`, `AnimationClient`). The basic
  program is a step relation over program counters and mutex owners. The animated one adds the socket mutex and
  the log of messages, and is proved to refine the basic one. The client rebuilds the scene from the log alone.
  The comment at `Assignment3/Philosophers/Basic/philos.c:90` and the report
  (`Assignment3/Philosophers_report.md:21`) say the lower-numbered fork is taken first; the code takes the
  higher-numbered one, and the model follows the code.
- **Virtual memory manager** (`RoundRobin`, `AgeRing`, `PagingSpec`, `PagingTheorems`, `VirtualMemory`,
  `ThreadedTranslator`). `PagingSpec` says what a translation is in terms of the history of faults and TLB
  updates; `VirtualMemory` has the program's arrays, age counters and scanning loops and is proved to compute
  exactly that; `PagingTheorems` has the consequences for all runs. `ThreadedTranslator` is the multi-threaded
  driver as a step relation.
- **Sudoku validator and generator** (`SudokuGrid`, `SudokuArrays`, `SudokuValidator`, `SudokuProgram`,
  `SudokuSolved`, `SudokuDigging`, `SudokuGenerator`). Grids are arrays of row pointers, as in the program. The
  workers' verdict is proved for every interleaving, and the generator for every sequence of random draws.
- **Dispatcher** (`FirstFit`, `HostResources`, `ResourceRuns`, `ProcessQueue`, `Dispatcher`, `HostDaemon`,
  `AdmissionRuns`, `Processor`, `DaemonCycle`, `DaemonSpec`, `DaemonRuns`, `DaemonBooks`). First-fit allocation with
  rollback over the host's arrays; the linked queue over heap nodes; the admission pass over those queues. `Processor`
  says what a processor cycle means for tasks as values and what whole runs of it do; `DaemonSpec` says where the
  processor, the arrays and everybody's records are after so many units of time, as a function of the list of
  processes. `DaemonCycle` has the cycle on the queues, the PCBs and the arrays, and `DaemonRuns` the whole program,
  proved to be in that state at every time. `DaemonBooks` proves what becomes of the host's resources over such runs.
- **Shell command reader** (`CommandParser`). The tokenizer and its in-place post-processing, and a printer it undoes.
- `Wrappers` (options) and `Counting` (sums over lists, sizes of sets) are shared.

What the proofs show about the code where it does not do what one might hope:

- A TLB hit can be stale, because evicting a page leaves it in the TLB. `StaleExactly` gives the exact condition,
  `AlwaysFreshExactly` the sizes for which it never happens (one slot, or 256 frames).
- The threaded loop tests the cursor without its lock, so all w workers can pass the test for the last of n
  addresses: exactly the first n + w - 1 cells can be claimed (`ClaimedExactly`). With two workers or more that is
  behind the last address (`NeverOvershootsExactly`), and it is behind the end of the buffer exactly when that has
  less room (`NeverReadsBeyondExactly`): with the program's 2000 cells and three workers, for 1999 addresses
  (`UnsafeForTheLastListOnly`).
- From eleven philosophers on an id has two digits and the client misreads the message (`ClientFaithfulExactlyUpToTen`).
- With one philosopher the protocol locks up (`DeadlockFreeExactlyFromTwo`).
- The puzzle generator never comes to an end when asked for fewer than nine clues (`Dig`).
- The shell's reader writes behind the end of its 64 argument slots exactly when a line has more than 62 words
  (`ParseCommand`).
- The animation client moves the fork of a message before it looks at the philosopher, so it can die half-way (`Comm`).
- A failed allocation attempt does not reset the start positions in the PCB. If the process is tried again, a
  second failure can release what somebody else was given in between: `FailureRestoresExactly`,
  `AttemptKeepsInvExactly` and the concrete run in `RetryTakesFromOthers`.
- Taking from a queue leaves its new head unmarked, and the next put overwrites it: a queue is first-in first-out
  exactly when each put right after a take finds it drained (`FifoExactly`, `MixedUseLoses`); a pass loses just the
  unmarked heads of the queues it adds to (`QueuesGrowExactly`), a cycle that of the one queue it may write to
  (`CycleLosesExactly`).
- All queues are there from the start, and only the first of those of priority 1, 2 and 3 that is there is looked at.
  So until somebody of priority 1 is admitted nobody of priority 2 or 3 ever runs (`LowerPrioritiesStarve`,
  `AloneAndWaiting`, `IdleExactly`).

How the code is rendered. A mutex is an owner variable with a blocking acquire; threads are interleaved step by
step; the unlocked cursor read is one step; the socket has a client that is always ready, so receiving a request
and answering it is one step. 0/1 flags are booleans. A random draw is a nondeterministic choice, or the next of a
list of draws given beforehand where a loop draws until something comes up. A NULL pointer
is `null` or `None`. The two copies of the age-counter loops are one pair of methods, and so are the four copies
of the per-device allocator. Ghost parameters (`units`, `nodes`, `ps`, `jobs`, ...) name what the real arguments hold.

## Model

| member | source | states |
|---|---|---|
| Forks.SecondFork | Assignment3/Philosophers/Basic/philos.c:88-101 | the fork locked second is the other of the two, and with two philosophers or more it has the lower number |
| BasicPhilosophers.StepKeepsInv | Assignment3/Philosophers/Basic/philos.c:63-122 | in every step: a mutex is owned by i exactly when i's program counter says it holds that fork, and nobody eats more than m meals |
| BasicPhilosophers.UnlocksOwnFork | Assignment3/Philosophers/Basic/philos.c:117-122 | a philosopher only unlocks mutexes it has locked itself |
| BasicPhilosophers.AtMostHalfEat | Assignment3/Philosophers/Basic/philos.c:63-101 | under the invariant at most n / 2 philosophers eat at once |
| BasicPhilosophers.WaiterLeadsToMover | Assignment3/Philosophers/Basic/philos.c:88-115 | from any philosopher waiting for its second fork, following the owners (always to a lower fork) leads to one that can move |
| BasicPhilosophers.NoDeadlock | Assignment3/Philosophers/Basic/philos.c:88-122 | for n >= 2, in every state of the invariant in which somebody is unfinished, somebody can step |
| BasicPhilosophers.EveryRunIsSafe | Assignment3/Philosophers/Basic/philos.c:63-122 | in every state reachable under any scheduler, for n >= 2: adjacent philosophers never eat together, at most n / 2 eat, and until all are finished somebody can step |
| BasicPhilosophers.EveryMaximalRunFinishes | Assignment3/Philosophers/Basic/philos.c:63-122 | no run is longer than 4nm steps; a run that cannot be continued has exactly 4nm, and then everyone has eaten m meals and every fork is free |
| BasicPhilosophers.DeadlockFreeExactlyFromTwo | Assignment3/Philosophers/Basic/philos.c:88-134 | all reachable states are free of deadlock exactly when there are two philosophers or more (or no meals): a single one has the same fork on both sides |
| AnimatedPhilosophers.StepRefinesBasic | Assignment3/Philosophers/Animated/philos.c:75-169 | every step is a step of the basic protocol by the same philosopher or invisible in it |
| AnimatedPhilosophers.RunRefinesBasic | Assignment3/Philosophers/Animated/philos.c:75-169 | so is every run, and it keeps the invariant of mutexes, socket and log |
| AnimatedPhilosophers.AnnouncementIsLegal | Assignment3/Philosophers/Animated/philos.c:115-169 | a message sent continues an alternating log, and afterwards the log's holder of each fork is exactly who has it announced |
| AnimatedPhilosophers.LogAgreesWithLocks | Assignment3/Philosophers/Animated/philos.c:115-169 | in every reachable state messages per fork alternate up/down by the same philosopher, and a fork shown as up is locked by the philosopher named |
| AnimatedPhilosophers.AtMostHalfEat | Assignment3/Philosophers/Animated/philos.c:75-98 | of the philosophers holding both forks neighbours never coincide, and there are at most n / 2 |
| AnimatedPhilosophers.NoDeadlock | Assignment3/Philosophers/Animated/philos.c:100-169 | the socket mutex adds no deadlock |
| AnimatedPhilosophers.EveryMaximalRunFinishes | Assignment3/Philosophers/Animated/philos.c:75-169 | no run is longer than 14nm steps; a run that cannot be continued has exactly 14nm, and ends with m meals each, all mutexes free and all forks announced as down |
| AnimationClient.ObserverAgrees | Assignment3/Philosophers/Animated/anim.py:73-123 | in every interleaving, after every message every fork is down or up once and every num_up is in 0..2; having seen the log the client shows exactly the announced forks and meals, under the shifted bowl numbers |
| AnimationClient.FinishedRunIsShownFinished | Assignment3/Philosophers/Animated/anim.py:73-123 | a finished run is shown with every fork down and m meals in every bowl |
| AnimationClient.WireFormat | Assignment3/Philosophers/Animated/philos.c:117-126 | for ids of one digit the message is the fork's digit, the philosopher's digit, and 1 for up or 0 for down |
| AnimationClient.WireRoundTrip | Assignment3/Philosophers/Animated/philos.c:117-126 | the three-character message is read back as it was sent exactly when both ids have one digit |
| AnimationClient.WireCarriesTheLog | Assignment3/Philosophers/Animated/anim.py:82-93 | with ids below ten, replaying the texts is replaying the log |
| AnimationClient.ClientFaithfulExactlyUpToTen | Assignment3/Philosophers/Animated/anim.py:92-93 | for n >= 2, at least one meal: the client shows the log rightly in all runs exactly when n <= 10 |
| AnimationClient.PhilosophicalDiners.AnimBowl | Assignment3/Philosophers/Animated/anim.py:100-119 | the bowl after the philosopher's own goes up or down by one and gains a meal when it reaches two; no other bowl changes |
| AnimationClient.PhilosophicalDiners.AnimFork | Assignment3/Philosophers/Animated/anim.py:121-123 | just that fork moves by one |
| AnimationClient.PhilosophicalDiners.Comm | Assignment3/Philosophers/Animated/anim.py:73-98 | any text: if its first and third characters are digits and name a fork, that fork moves; if the second is a digit too, this is the effect of the message it decodes to; otherwise the client dies there, having moved the fork at most |
| AgeRing.AgeAfterUpdate | Assignment4/VirtualMemoryManager/vmm.c:191-209 | one update makes the slot under a rotating hand the youngest and all others in use one older |
| AgeRing.SlotAfterUpdate | Assignment4/VirtualMemoryManager/vmm.c:191-209 | the k-th update fills slot k mod size and leaves the other slots alone |
| AgeRing.SlotHoldsItsLastTurn | Assignment4/VirtualMemoryManager/vmm.c:191-209 | slot i holds what the last update l with l mod size = i put there |
| AgeRing.AgesArePermutation | Assignment4/VirtualMemoryManager/vmm.c:187-209 | the ages of the slots in use are always a permutation of 1..count |
| AgeRing.FindOldest | Assignment4/VirtualMemoryManager/vmm.c:192-197 | the scan with `>=` over a full set of ages finds the slot of the round-robin hand |
| AgeRing.AgeAll | Assignment4/VirtualMemoryManager/vmm.c:207-209 | exactly the slots in use age by one |
| PagingSpec.AddressRoundTrip | Assignment4/VirtualMemoryManager/vmm.c:318-331 | page * 256 + offset gives the address back exactly for addresses in 0..65535 |
| PagingTheorems.FaultFillsNextFrame | Assignment4/VirtualMemoryManager/vmm.c:266-297 | the k-th fault replaces the contents of frame k mod size and of no other |
| PagingTheorems.MissUsesOwnPage | Assignment4/VirtualMemoryManager/vmm.c:76-91 | on a TLB miss the frame used holds the page asked for |
| PagingTheorems.ExecInv | Assignment4/VirtualMemoryManager/vmm.c:60-100 | in every run resident pages are pairwise distinct, and all TLB slots with the same page agree on the frame |
| PagingTheorems.StaleExactly | Assignment4/VirtualMemoryManager/vmm.c:72-99 | a TLB hit uses a frame that holds its page if and only if no fault since the page's last TLB miss has refilled that frame |
| PagingTheorems.NextLine | Assignment4/VirtualMemoryManager/vmm.c:72-99 | in every run, the next line printed has the physical address frame * 256 + address % 256 and the byte at that offset of the page that the last fault whose turn was this frame brought in; when the frame holds the page asked for, it is the byte of the store at the virtual address |
| PagingTheorems.HitsAreRecentReferences | Assignment4/VirtualMemoryManager/vmm.c:60-100 | an access hits exactly when its page is among the previous TLBSIZE references; the number of hits is a function of the reference string, whatever the page table does |
| PagingTheorems.CorrectWithoutEviction | Assignment4/VirtualMemoryManager/vmm.c:60-100 | while no more pages are used than there are frames: every value is store[address] (of the 16 bits that are translated), physical addresses are equal exactly for equal virtual ones, and there is one fault per page |
| PagingTheorems.AlwaysFreshExactly | Assignment4/VirtualMemoryManager/vmm.c:266-297 | translations are right in all runs exactly when there is one TLB slot or there are at least 256 frames |
| VirtualMemory.TLB.constructor | Assignment4/VirtualMemoryManager/vmm.c:148-160 | an empty TLB with no updates in its history |
| VirtualMemory.TLB.CheckTLB | Assignment4/VirtualMemoryManager/vmm.c:166-177 | -1 exactly when the page is not among the last `size` updates; otherwise the frame of such an update |
| VirtualMemory.TLB.UpdateTLB | Assignment4/VirtualMemoryManager/vmm.c:185-212 | the update is appended to the history; slot k mod size is written, no other slot changes, and the ages still encode the history |
| VirtualMemory.PageTable.constructor | Assignment4/VirtualMemoryManager/vmm.c:219-229 | an empty page table |
| VirtualMemory.PageTable.FindPageIndex | Assignment4/VirtualMemoryManager/vmm.c:236-247 | the frame that holds the page according to the history of faults, or -1 |
| VirtualMemory.PageTable.UpdatePageTable | Assignment4/VirtualMemoryManager/vmm.c:266-297 | the fault goes to frame k mod size and no other frame changes |
| VirtualMemory.ReadPage | Assignment4/VirtualMemoryManager/vmm.c:364-380 | byte k of the page is byte page * 256 + k of the store |
| VirtualMemory.Manager.TranslateOne | Assignment4/VirtualMemoryManager/vmm.c:63-99 | one pass through the loop body is one access of the specification: TLB, faults, hits and printed line |
| VirtualMemory.Manager.TranslateAll | Assignment4/VirtualMemoryManager/vmm.c:60-100 | the loop runs the specification over the whole address list; pageFaults counts its faults |
| ThreadedTranslator.StepKeepsInv | Assignment4/VirtualMemoryManager/vmm.c:383-431 | every step of any worker keeps: the memory is a sequential run up to the stage the table's owner has reached; each index is claimed once; the cursor bound |
| ThreadedTranslator.EveryRunIsSequential | Assignment4/VirtualMemoryManager/vmm.c:387-430 | in every reachable state with the table unlocked the memory is that of a sequential run over the claimed addresses in table-lock order, without repetition; the cursor never exceeds n + w - 1 |
| ThreadedTranslator.FinishedRunTranslatesAll | Assignment4/VirtualMemoryManager/vmm.c:383-431 | when all workers have exited, the order is a permutation of the indices below the cursor, which include all n |
| ThreadedTranslator.NoDeadlock | Assignment4/VirtualMemoryManager/vmm.c:389-429 | until all have exited somebody can step or is about to claim a cell behind the end of the buffer; no other access is ever out of bounds |
| ThreadedTranslator.EveryRunIsBounded | Assignment4/VirtualMemoryManager/vmm.c:383-431 | no run has more than 11 (n + w - 1) + w steps |
| ThreadedTranslator.ClaimedExactly | Assignment4/VirtualMemoryManager/vmm.c:387-391 | some run brings some worker to claim cell b exactly when b is below n + w - 1 (and there is an address) |
| ThreadedTranslator.NeverOvershootsExactly | Assignment4/VirtualMemoryManager/vmm.c:387-391 | no run claims a cell beyond the last address exactly when there is a single worker (or no address) |
| ThreadedTranslator.NeverReadsBeyondExactly | Assignment4/VirtualMemoryManager/vmm.c:387-391 | no run reads behind the end of the buffer exactly when it has at least n + w - 1 cells (or there is no address) |
| ThreadedTranslator.UnsafeForTheLastListOnly | Assignment4/VirtualMemoryManager/vmm.c:341-355 | with 2000 cells and three workers, of the lists that are accepted just those of 1999 addresses can be read beyond |
| SudokuGrid.ValidByUnits | Assignment3/Sudoku/sudoku.c:332-394 | no two cells of one unit clash exactly when none of the 27 rows, columns and blocks repeats a digit |
| SudokuGrid.FullUnitIsPermutation | Assignment3/Sudoku/sudoku.c:293-327 | for a unit without zeros, no repeats means a permutation of 1..9, and conversely |
| SudokuGrid.FullGridIsSolution | Assignment3/Sudoku/sudoku.c:293-394 | a grid without zeros is valid exactly when every row, column and block has all nine digits |
| SudokuGrid.RotateKeepsValid | Assignment3/Sudoku/sudoku.c:165-184 | turning a valid grid by 90 degrees leaves it valid |
| SudokuGrid.ShuffleKeepsValid | Assignment3/Sudoku/sudoku.c:189-200 | rearranging rows within bands of three leaves a valid grid valid |
| SudokuGrid.EmptyingKeepsValid | Assignment3/Sudoku/sudoku.c:141-144 | emptying cells leaves a valid grid valid |
| SudokuGrid.DecodeEncode | Assignment3/Sudoku/sudoku.c:149-152 | writing a grid down and decoding the string gives the grid |
| SudokuGrid.EncodeDecode | Assignment3/Sudoku/sudoku.c:466-484 | decoding a string of 81 digits and writing the grid down gives the string |
| SudokuArrays.DecodeSudokuString | Assignment3/Sudoku/sudoku.c:466-484 | nine fresh separate rows holding the decoded grid |
| SudokuArrays.RotateArray | Assignment3/Sudoku/sudoku.c:165-184 | fresh rows holding the rotated grid |
| SudokuArrays.SwapRows | Assignment3/Sudoku/sudoku.c:189-200 | the row pointers are rearranged within their bands, and in no band more than two of them |
| SudokuArrays.CopyOfRow | Assignment3/Sudoku/sudoku.c:332-344 | a fresh copy of that row |
| SudokuArrays.CopyOfColumn | Assignment3/Sudoku/sudoku.c:349-361 | a fresh copy of that column |
| SudokuArrays.CopyOfBlock | Assignment3/Sudoku/sudoku.c:370-394 | a fresh copy of that block, row by row |
| SudokuValidator.DealtLength | Assignment3/Sudoku/sudoku.c:401-431 | no worker is dealt more units than the n / threads + 1 slots it has |
| SudokuValidator.DealtTo | Assignment3/Sudoku/sudoku.c:73-89 | unit i is dealt to worker i mod threads |
| SudokuValidator.EveryoneClearMeansAllClear | Assignment3/Sudoku/sudoku.c:73-89 | all workers' lists are clear exactly when all units are, for any number of workers |
| SudokuValidator.StepKeepsInv | Assignment3/Sudoku/sudoku.c:226-327 | every step of a worker or of the main thread keeps: a worker's flag tells about the units it has scanned, and what the main thread has seen stays true |
| SudokuValidator.StuckExactlyWhenDone | Assignment3/Sudoku/sudoku.c:226-285 | somebody can go on exactly until the main thread has its verdict; then all workers are tested |
| SudokuValidator.VerdictUnderAnySchedule | Assignment3/Sudoku/sudoku.c:205-327 | for any thread counts and any interleaving of the workers and the joining and waiting main thread: no run has more than 12 steps per thread and 272 more, a run that cannot be continued has a verdict, and the verdict is 1 exactly when the grid is valid |
| SudokuProgram.HasRepeat | Assignment3/Sudoku/sudoku.c:301-320 | the scan with its table of digits seen reports exactly the units that repeat a non-zero digit |
| SudokuProgram.NumberArray.IsValid | Assignment3/Sudoku/sudoku.c:293-327 | marks the structure tested, and lowers its flag exactly when one of its units has a repeat |
| SudokuProgram.DealUnits | Assignment3/Sudoku/sudoku.c:67-89 | after nine rounds each worker holds just the units dealt to it |
| SudokuProgram.CollectVerdict | Assignment3/Sudoku/sudoku.c:249-280 | 1 exactly when every flag of every team is up |
| SudokuProgram.TestNumberArrays | Assignment3/Sudoku/sudoku.c:205-285 | the verdict is that all 27 units are clear |
| SudokuProgram.TestSudokuString | Assignment3/Sudoku/sudoku.c:46-102 | -1 for a string of the wrong length, otherwise 1 exactly when the grid has no clash and 0 if it has |
| SudokuSolved.SolvedIsValid | Assignment3/Sudoku/sudoku.c:106 | the built-in solution is full and valid |
| SudokuDigging.EveryDigitNineTimes | Assignment3/Sudoku/sudoku.c:106-114 | in a full valid grid every digit occurs nine times |
| SudokuDigging.AtMostSeventyTwo | Assignment3/Sudoku/sudoku.c:127-145 | removals never exceed 72 (eight of each digit), and once every cell has been drawn they are exactly 72 |
| SudokuDigging.WhatIsLeft | Assignment3/Sudoku/sudoku.c:127-145 | after k removals exactly 81 - k clues remain, every digit is among them, and the grid is still valid |
| SudokuGenerator.Shuffle | Assignment3/Sudoku/sudoku.c:114-125 | whatever is drawn, the grid stays full and valid, and is the built-in solution after fewer than `count` rounds of at most one exchange per band and a turn |
| SudokuGenerator.DrawUnused | Assignment3/Sudoku/sudoku.c:129-136 | of the cells drawn the first that was not drawn before is marked; no other cell changes, and without one the draws are used up |
| SudokuGenerator.DigRound | Assignment3/Sudoku/sudoku.c:127-145 | a round uses up one cell, and either removes its clue or skips it because its digit was removed eight times |
| SudokuGenerator.Dig | Assignment3/Sudoku/sudoku.c:127-145 | whatever is drawn: with fewer than nine clues to leave it never ends, otherwise it has ended once every cell has been drawn; then the puzzle is valid, has just the clues asked for and every digit |
| SudokuGenerator.GenerateSudokuPuzzle | Assignment3/Sudoku/sudoku.c:105-160 | with fewer than nine clues no puzzle ever comes out, with nine or more one does once every cell has been drawn; it is a shuffled solution with some cells emptied, and the program's own test says 1 of it |
| FirstFit.SearchIsExact | Assignment5/dispatcher/resources/resources.c:274-308 | for a request >= 1 by a pid that is absent: -1 exactly when there is no free window of that length, otherwise the least start of one |
| FirstFit.OwnCellEndsSearch | Assignment5/dispatcher/resources/resources.c:288-296 | a process that owns cells already is searched for only in front of the first of them |
| FirstFit.CheckResourcesFreeFirstFit | Assignment5/dispatcher/resources/resources.c:274-308 | the scan computes that search, for every request, pid and array (also zero or negative requests, and a pid that is met) |
| HostResources.FailureRestoresExactly | Assignment5/dispatcher/resources/resources.c:8-31 | a failed attempt leaves the arrays as they were exactly when no kind still on record, and not granted again, is taken by now |
| HostResources.FreshFailureRestores | Assignment5/dispatcher/resources/resources.c:8-31 | a failed first attempt leaves the arrays as they were |
| HostResources.KindGrantedExactly | Assignment5/dispatcher/resources/resources.c:37-220 | a kind is granted exactly when there is a free range of the length needed, in the whole array for devices, in the first rt cells of memory for priority 0 and in the rest for all others; and then the first such range |
| HostResources.AdmittedExactly | Assignment5/dispatcher/resources/resources.c:8-220 | a process that owns nothing is admitted exactly when each kind it needs has such a range (a negative need has none) |
| HostResources.PCB.constructor | Assignment5/dispatcher/resources/pcb.c:6-38 | nothing held, no start positions |
| HostResources.AllocateKind | Assignment5/dispatcher/resources/resources.c:37-62 | nothing needed: success at once; otherwise first fit decides, and on success exactly that window is filled with the pid and recorded |
| HostResources.AllocateMemory | Assignment5/dispatcher/resources/resources.c:161-220 | the same on cells 0 to rt - 1 for priority 0 and on the rest for all others, with the start recorded absolutely |
| HostResources.Host.AllocateResources | Assignment5/dispatcher/resources/resources.c:8-31 | 2, 1 or 0; the arrays and the PCB after all five attempts and, on failure, the release |
| HostResources.Host.FreeHostResources | Assignment5/dispatcher/resources/resources.c:225-266 | each recorded range is zeroed, and nothing else |
| ResourceRuns.AttemptKeepsInvExactly | Assignment5/dispatcher/resources/resources.c:8-31 | ownership of cells and the totals survive an attempt exactly when it succeeds or what it releases is free or its own |
| ResourceRuns.TerminateKeepsInv | Assignment5/dispatcher/resources/resources.c:225-266 | they survive the release of a process that is in the system |
| ResourceRuns.EveryRunConserves | Assignment5/dispatcher/resources/resources.c:8-266 | in every run of harmless attempts and releases: each taken cell belongs to exactly one process's recorded range, each process has what it needs, free plus held is the total, and memory below the real-time limit is real-time memory exactly |
| ResourceRuns.RunsWithoutRetriesConserve | Assignment5/dispatcher/resources/resources.c:8-266 | the same for every run of attempts and releases in which no process is tried twice |
| ResourceRuns.FreshIsHarmless | Assignment5/dispatcher/resources/pcb.c:6-23 | a first attempt is always harmless |
| ResourceRuns.RetryTakesFromOthers | Assignment5/dispatcher/resources/resources.c:225-266 | a run of three attempts after which a process in the system has lost its printer |
| ProcessQueue.FifoExactly | Assignment5/dispatcher/queue/queue.c:24-67 | over any run of puts and takes: put = taken + held + overwritten in number, and the order is first-in first-out exactly when every put right after a take comes when, by a count of puts and takes, nothing is left |
| ProcessQueue.FillThenDrain | Assignment5/dispatcher/queue/queue.c:24-67 | filling first and draining later is first-in first-out |
| ProcessQueue.MixedUseLoses | Assignment5/dispatcher/queue/queue.c:24-67 | put, put, take, put loses a process |
| ProcessQueue.Queue.constructor | Assignment5/dispatcher/queue/queue.c:8-19 | a single unmarked node without process or successor |
| ProcessQueue.EnqueueProcess | Assignment5/dispatcher/queue/queue.c:24-39 | on the linked nodes: an unmarked head is overwritten and marked; otherwise a new node is linked at the end |
| ProcessQueue.DequeueProcess | Assignment5/dispatcher/queue/queue.c:44-67 | the variable moves on by one node, or becomes NULL; no node changes, so the new head is unmarked |
| ProcessQueue.NumElems | Assignment5/dispatcher/queue/queue.c:110-122 | the number of nodes; 0 for NULL |
| Dispatcher.SelectIsStable | Assignment5/dispatcher/hostd.c:217-256 | a selection takes exactly the wanted processes, in their order |
| Dispatcher.PassPartitions | Assignment5/dispatcher/hostd.c:217-256 | each process of the queue is in exactly one of five selections: waiting, or one of four priority queues |
| Dispatcher.QueuesGrowExactly | Assignment5/dispatcher/hostd.c:217-296 | after a pass a priority queue has what it had, followed by those admitted at its priority, in order, unless somebody was sent to it while it was unmarked and not empty: then just its head is replaced by the first of them |
| HostDaemon.PriorityQueues.EnqueueToPriority | Assignment5/dispatcher/hostd.c:272-296 | priority 0, 1 or 2 goes to queue 0, 1 or 2 and every other to queue 3; a queue that is gone is started anew, and no other queue changes |
| HostDaemon.Daemon.OneTurn | Assignment5/dispatcher/hostd.c:217-256 | one turn: the head leaves the old queue, is tried if it has arrived, and joins its priority queue or the new dispatcher queue |
| HostDaemon.Daemon.UpdateDispatcher | Assignment5/dispatcher/hostd.c:189-267 | on the linked queues and the host's arrays: the new dispatcher queue holds in order exactly those not arrived or refused, all others are sent to their queues in order, and the result is 1 exactly when one of them was real-time |
| HostDaemon.InitSystem | Assignment5/dispatcher/hostd.c:301-324 | everything free, nobody running, five separate empty queues, all of it newly made |
| AdmissionRuns.PassIsARun | Assignment5/dispatcher/hostd.c:189-267 | as long as no attempt does harm, a pass is a run of attempts that keeps the host's books and touches nobody who is not in the queue |
| AdmissionRuns.FreshTurnsAreHarmless | Assignment5/dispatcher/hostd.c:189-267 | no attempt of a pass does harm if whoever has arrived was never tried before |
| Processor.EveryRunBalances | Assignment5/dispatcher/hostd.c:39-73 | from start-up, whatever is admitted and when: every process admitted is on the processor or in the queues, or has finished, or is one that was overwritten; and the work admitted is the work left, the work lost with the overwritten and one unit per busy cycle |
| Processor.CycleLosesExactly | Assignment5/dispatcher/hostd.c:95-183 | a cycle overwrites a process exactly when the one queue it writes to, told from the state before, is there, not empty and unmarked; then just its head |
| Processor.EveryRunIsSorted | Assignment5/dispatcher/hostd.c:95-183 | in every run whoever waits in queue 0, 1 or 2 has that priority, and whoever waits in queue 3 has another |
| Processor.TakenRunsItsSlice | Assignment5/dispatcher/hostd.c:128-180 | without real-time arrivals, the head of the first of queues 1, 2 and 3 that is there runs for exactly 1, 2 or 3 units of time, or what it still needs if that is less; then it is finished or waits at priority 2, 3 or 1 |
| Processor.RunsToTheEnd | Assignment5/dispatcher/hostd.c:105-110 | a real-time process keeps the processor until its work is done, whoever comes; so does one of negative priority unless a real-time process comes |
| Processor.RealTimeTakesOver | Assignment5/dispatcher/hostd.c:99-125 | when a real-time process comes and none is running, the head of their queue runs at once, and whoever was running waits in the queue of its priority with the rest of its slice |
| Processor.IdleExactly | Assignment5/dispatcher/hostd.c:99-151 | when the processor does nothing: nobody running and nobody in the queue looked at, the real-time one if somebody has just come there, otherwise the first of the three others that is there |
| Processor.LowerPrioritiesStarve | Assignment5/dispatcher/hostd.c:130-147 | from start-up, in every run in which nobody of priority 1 is admitted: only real-time processes run or finish, and all others ever admitted are waiting, as they came, in order |
| Processor.AloneAndWaiting | Assignment5/dispatcher/hostd.c:130-147 | in particular a process of priority 2 or lower that is alone in the system never runs, and waits in queue 2 or 3 |
| DaemonCycle.DoProcessing | Assignment5/dispatcher/hostd.c:95-183 | on the linked queues, PCBs and arrays: the branches of the code compute the specified cycle, a finished process gives back what it had on record, and nobody is in two places |
| DaemonCycle.StartNext | Assignment5/dispatcher/hostd.c:112-147 | the head of the queue goes to the processor with the slice of its queue, and only it leaves |
| DaemonRuns.PassTasks | Assignment5/dispatcher/hostd.c:217-296 | to the processor an admission pass is the arrival of the admitted, one after the other, and the flag says whether one of them is real-time |
| DaemonRuns.OneQuantum | Assignment5/dispatcher/hostd.c:39-73 | one turn of the main loop is one unit of time of the specification with those admitted that the pass decides on; the records and arrays are those after the pass and the release; the others wait as before |
| DaemonRuns.NextQuantum | Assignment5/dispatcher/hostd.c:39-73 | the turn at this time brings the heap to the next state of the world |
| DaemonRuns.HostD | Assignment5/dispatcher/hostd.c:8-73 | start-up, reading the list and so many turns of the main loop: the processor with its queues, the arrays, the dispatcher queue and everybody's records are in the state of the world at that time |
| DaemonSpec.EntersExactly | Assignment5/dispatcher/hostd.c:217-256 | who waits enters at a time exactly when it has arrived by then and is granted what it needs after those before it |
| DaemonSpec.NobodyEntersEarlyOrTwice | Assignment5/dispatcher/hostd.c:229-249 | in every run nobody enters before its arrival time, and nobody at two times |
| DaemonSpec.NeedlessEntersOnArrival | Assignment5/dispatcher/hostd.c:229-249 | a process that needs nothing enters exactly at its arrival time (at the start if that is negative) |
| DaemonSpec.WhoStillWaits | Assignment5/dispatcher/hostd.c:39-73 | after n units of time everybody waits who arrives later, and of those who need nothing nobody else |
| DaemonSpec.NobodyIsMissing | Assignment5/dispatcher/hostd.c:39-73 | at every time each process of the list waits, runs, is queued, has finished or was overwritten; and all work is still to do, was lost or was done |
| DaemonBooks.DaemonConserves | Assignment5/dispatcher/hostd.c:39-183 | at every time, as long as no attempt has done harm: each taken cell belongs to exactly one process that has entered and not finished, each of those has what it needs, and free plus held is the total |
| DaemonBooks.ConservedUnlessRefused | Assignment5/dispatcher/hostd.c:39-183 | so in every run in which nobody who has arrived is refused |
| CommandParser.SpreadThenSplit | Assignment2/miniShell/readCommand/readCommand.c:125-151 | words joined by any blanks are split into the same words |
| CommandParser.SplitThenSpread | Assignment2/miniShell/readCommand/readCommand.c:125-151 | every line is its own words joined by some blanks |
| CommandParser.InterpretUndoesTyping | Assignment2/miniShell/readCommand/readCommand.c:33-68 | the two passes recover a command from its words exactly when nothing at its end looks like an unmeant `&` or `>` |
| CommandParser.StrSep | Assignment2/miniShell/readCommand/readCommand.c:133 | cuts at the first blank; at the end of the string nothing is left |
| CommandParser.CommandStruct.ParseCommand | Assignment2/miniShell/readCommand/readCommand.c:125-151 | -2 when the first word is longer than 16; otherwise writes behind the end of argv exactly when there are fewer than two slots more than words; otherwise argv and argc hold exactly the non-empty words, closed by NULL |
| CommandParser.CommandStruct.DeleteLastArgument | Assignment2/miniShell/readCommand/readCommand.c:75-83 | the list is one shorter and closed |
| CommandParser.CommandStruct.CheckAndSetRunsInBackground | Assignment2/miniShell/readCommand/readCommand.c:33-47 | a final `&` after at least one word is taken off and the flag set; otherwise nothing is taken off |
| CommandParser.CommandStruct.CheckAndSetRedirect | Assignment2/miniShell/readCommand/readCommand.c:54-68 | a next-to-last `>` after at least one word is taken off with the file name; otherwise nothing is taken off |
| CommandParser.CommandStruct.ReadCommand | Assignment2/miniShell/readCommand/readCommand.c:90-118 | -1 for a blank line, -2 for a long name, otherwise the command the line means, unless its words do not fit |
| CommandParser.ParserUndoesPrinter | Assignment2/miniShell/readCommand/readCommand.c:90-151 | a command typed with any extra spaces, tabs and newlines is read back exactly if and only if its name has at most 16 characters and it is unambiguous |
| CommandParser.ReadLinesAreTyped | Assignment2/miniShell/readCommand/readCommand.c:90-151 | conversely every line that is read is an unambiguous command typed with some blanks |

## Left out

- CommandParser.CommandStruct.ParseCommand: stops where the source would write behind the end of argv; what happens from there on is not defined.
- SudokuGenerator.GenerateSudokuPuzzle: the cells drawn are a finite list given beforehand, so that drawing for ever is the outcome None on every list; the draws for shuffling are nondeterministic choices.
- SudokuProgram.TestNumberArrays: runs the workers one after the other; that no interleaving changes the verdict is `SudokuValidator.VerdictUnderAnySchedule`.
- SudokuProgram.CollectVerdict: leaves out the waiting for isTested, which is part of the main thread in `SudokuValidator`.
- AnimationClient.PhilosophicalDiners.Comm: heights are relative and integral; the scene, camera, textures and the time-out that ends the program are left out.
- HostDaemon.Daemon.UpdateDispatcher: takes the processes in the queue to be distinct PCBs whose recorded ranges lie within the arrays, as they are when every PCB comes from the list reader.
- DaemonRuns.HostD: takes the processes as given, not yet tried and with different pids, as the reader of the list numbers them.
- DaemonCycle.DoProcessing: requires that a real-time process is waiting when the flag says so, as `DaemonRuns.OneQuantum` proves of every pass; without one the code would queue the running process and go on running it.
- ThreadedTranslator.NoDeadlock: a read behind the end of the buffer is not modelled further than that it happens.
- The 81-character solution string is given as its nine rows.
- C strings and buffers: message buffers of three bytes, `malloc` and `free`, and the nodes that the queue never frees.
- Reading files, opening the backing store, parsing the process list and the addresses; these are inputs.
- Printing, verbose branches, sleeping, the statistics printed at the end, and the state a PCB shows in them.
- `AddPage`, `pushbackQueueElement`, the unused user queue and real-time counter, and the queue demonstration.
- The shell's process and path code, the socket and pipe programs, the Fibonacci program, the OS statistics reader and the in-lab exercises: input/output plumbing or trivial.
- Integer overflow of ages and counters: ages are proved to stay within the table size; fault and hit counters are unbounded here.
