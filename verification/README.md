# A model of the paging Xinu kernel

This project models the kernel of an instructional operating system with demand paging, and
proves what its parts promise. It covers four parts that share nothing but machine constants.

**Demand paging.** 1024 frames cache the pages of eight backing stores of at most 256 pages.
Physical memory is a sequence of pages, each holding data, a page table or a directory; the
inverted page table, the frame queue, the Second-Chance hand, the store map and the process
entries are as in `paging/`. What a process sees is one flat memory, (store, page) -> contents.
The main theorem, `PagingRun.PagingIsTransparent`, says of every run that a read returns the byte
last stored at that place of that store by whichever process. It rests on an invariant over
reference counts, directories, entries, queue, dirty bits and mappings that every step keeps.
Where the code keeps it only under a condition, the condition is stated exactly, as an
if-and-only-if, and `Failures` and `FullMemory` have a case in which it does not hold:

- a fault whose victim is the only page of the table being filled (`FaultStep.FaultKeepsInv`,
  `FaultStep.FaultMakesResident`): the count of the table rises only after the eviction;
- a directory frame with stale present entries (`Birth.CreateKeepsInv`,
  `HeapBirth.VcreateKeepsInv`, `Boot.BootIsSound`): only four entries are written;
- `xmmap` on overlapping ranges, twice on one store, or by a process with a private heap
  (`Lifecycle.XmmapKeepsInv`): none of this is checked;
- a Second-Chance search that meets a null link (`Replacement.SecondChanceDefined`,
  `GetFrame.HandAfterEviction`);
- `kill` of the null process or of a free slot (`Death.KillNullLosesDirectory`,
  `Death.KillDeadPid`): the pid is checked last.

What replacement goes by is told over whole runs. The frame queue lists the allocated frames in
the order of their latest allocation (`QueueOrder.QueueInOrder`). An access bit says that the page
has been touched since it was brought in and the hand last passed it, and Second-Chance evicts the
first page from its hand of which that is not so (`TouchHistory.BitTells`,
`TouchHistory.RunSecondChance`). An age spells the last eight Aging searches, and Aging evicts the
page that loses every comparison at the latest difference (`AgeHistory.AgesTellHistory`,
`AgeHistory.VictimByHistory`). Aging never clears an access bit, so
under it alone a page once touched counts as accessed at every later search
(`TouchHistory.OnceTouched`).

`Sharing` says when a mapping is granted and what those who share a store see of each other;
`PagingEffects` and `SwitchEffects` say when faults, births and `get_frm` are served and what
each call leaves behind, and `Progress` that what is allowed can be done: a load or store that can
end well is a run of at most two steps with the promised result.

**Heaps.** The address-ordered free lists of `getmem`, `freemem`, `getstk`, `vgetmem` and
`vfreemem`: canonical form, exact bytes, and whole runs that restore the initial list. The field
vmemlist of a process entry is set nowhere, so the heaps of all processes share the header word at
address zero: `SharedHeap.KeepsItsList` says exactly when a process keeps its list, and
`SharedHeap.SecondHeapTakesOver` and `SharedHeap.HandedOutTwice` show it lose the list.

**Scheduling and time.** Ready list, semaphores, messages and the delta list of sleepers, all in
one array of links. Over every run, process states, lists, counts and flags agree, the running
process has the highest priority, semaphores serve in order of arrival, processes of one priority
take turns (`SchedTurns.RoundRobin`, `SchedTurns.TenTicks`), and a sleeper wakes on its tick.
`SchedEffects.StepDoes` has the whole effect of every call and interrupt. `stopclk` and `strtclk`
are modelled as they are: the interrupt handler ignores them.

**Algorithms.** `qsort` with its fat pivot, byte by byte; the TFTP client against a lossy
network; number printing and scanning in 32-bit arithmetic.

Each part has two layers. The specification layer is written on values: `Machine`, `BackingStore`,
`Frames`, `PagingInv`, `Tweak`, `FreeFrame`, `Replacement`, `GetFrame`, `PageFault`, `FaultStep`,
`Switch`, `Access`, `Lifecycle`, `Death`, `Birth`, `HeapBirth`, `PagingRun`, `Boot`, `QueueOrder`,
`AgeHistory`, `TouchHistory`, `Sharing`, `PagingEffects`, `SwitchEffects`, `Progress`, `Failures`,
`FullMemory` for paging, `FreeList`, `HeapRun` and `SharedHeap` for heaps, `DeltaList`, `QLists`,
`Sched`, `SchedInv`, `SchedOps`, `SchedCalls`, `SchedRun`, `SchedFair`, `SchedEffects`,
`SchedTurns` for scheduling, `Tftp` and `TftpRun` for the client. The imperative layer has the
source's loops and updates in place: the classes `FrameQueue.Queue` and `Kernel.Paging`,
`MemList.List`, `QTable.Table` and `Processes.Kernel`, `BootLoader.Monitor`, and the methods of
`QSort` and `Numbers`. Every method there ends in exactly the state its specification function
gives, so the theorems hold of the loops as well.

Where the code and README.md of the repository differ, the model follows the code: the order of
counting and eviction in a fault (README.md:276-279), the number of mappings a store may have
(README.md:407), and `NFRAMES` as the number of entries of a table (README.md:502).

## Model

| member | source | states |
|---|---|---|
| `PagingRun.PagingIsTransparent` | paging/pfint.c:105-141 | Over every run of reads, writes, faults with evictions, maps, unmaps, switches, kills, exits and births, a read returns the byte last stored at that offset of that store page by any process |
| `PagingRun.StepRefines` | sys/resched.c:65-146 | Every step keeps the system sound and does to the flat memory (store, page) -> contents exactly what its abstract counterpart does: only a write and the birth of a heap change it |
| `PagingRun.RunRefines` | paging/pfint.c:13-148 | By induction, every state of a run is sound and represents the flat memory of the steps so far |
| `PagingRun.MemoryIsLastStored` | paging/pfint.c:105-141 | The flat memory of a run holds at every place the byte last stored there |
| `PagingRun.Coherence` | sys/resched.c:65-146 | A dirty page belongs to the running process or to the owner of a private store; no two frames are dirty for one store page; every resident page of the running process equals the flat memory |
| `PagingRun.RepresentsOne` | paging/frame.c:85-120 | Frames, dirty bits and stores determine the flat memory: a valid state represents at most one |
| `PagingRun.TableCounts` | paging/pfint.c:60-141 | The count of a table that is not global is its number of present entries, is positive, and the table is named by a present entry of its owner's directory |
| `PagingRun.FrameHasEntry` | paging/frame.c:341-385 | Each FR_PAGE frame is named by the present entry its pid and vpno lead to |
| `PagingRun.EntryHasFrame` | paging/frame.c:341-385 | Each present entry of a table names an FR_PAGE frame whose pid and vpno lead back to that entry |
| `QueueOrder.QueueInOrder` | paging/frame.c:153-208 | In every state of a run the frame queue lists exactly the allocated frames, once each, in the order in which get_frm last handed them out, through allocation, eviction, table revocation, unmap and kill |
| `QueueOrder.StepOrders` | paging/frame.c:153-208 | Each step hands out the frames it hands out in that order, records them, and leaves the queue in order |
| `QueueOrder.GetFrmOrders` | paging/frame.c:26-63 | The frame get_frm returns is the last on the queue and the latest allocated; the allocation time of no other frame changes |
| `QueueOrder.FreeThins` | paging/frame.c:77-135 | free_frm takes frames off the queue, its table too if it goes, and leaves the others in order |
| `QueueOrder.KillThins` | sys/kill.c:25-72 | So does kill |
| `QueueOrder.BootOrdered` | sys/initialize.c:227-282 | The queue is in order at boot |
| `QueueOrder.AgingTakesOldest` | paging/frame.c:304-335 | Of the pages of least age, Aging evicts the one allocated longest ago |
| `TouchHistory.BitTells` | paging/frame.c:211-241 | In every state of a run the access bit of a page says exactly whether the page has been touched since it was brought in and the hand of Second-Chance last passed it |
| `TouchHistory.RunSecondChance` | paging/frame.c:211-294 | So in a run Second-Chance passes only pages touched since then and evicts one that has not been; if all have been, the first page from the hand on |
| `TouchHistory.StepBits` | paging/frame.c:341-358 | A step sets the bit of the page it touches, clears those of the pages the hand passes, brings a page in with a clear one, and changes no other bit |
| `TouchHistory.GetFrmBits` | paging/frame.c:26-63 | Of the pages that stay in memory, exactly those lose their bit that the search of get_frm passes; Aging clears none |
| `TouchHistory.OnceTouched` | paging/frame.c:304-321 | Nothing but Second-Chance clears an access bit: in a run under Aging alone a page once touched is found accessed by every later search, as long as it stays in its frame |
| `AgeHistory.AgesTellHistory` | paging/frame.c:304-324 | In every state of a run the age of a page is the sum of 2^(7-j) over those of the last eight Aging searches since its frame was handed out (j = 0 the latest) that found it accessed |
| `AgeHistory.VictimByHistory` | paging/frame.c:304-338 | Of any page and the victim of Aging, the victim was not accessed at the latest of the last eight searches that saw them differently; without such a search it was allocated first |
| `AgeHistory.RunVictim` | paging/frame.c:298-338 | So it is in every state of a run |
| `AgeHistory.RegisterShifts` | paging/frame.c:305-321 | Halving an age and adding 128 for an access shifts the register of the last eight searches |
| `AgeHistory.LatestDecides` | paging/frame.c:317-335 | Of two registers the smaller is the one that was clear at the latest difference |
| `AgeHistory.BootTells` | sys/initialize.c:227-282 | At boot nothing has been seen and every age is zero |
| `Machine.FaultVpnoRight` | paging/pfint.c:18-25 | The page number formed from the two indices is the page of the address, for every address, exactly when NFRAMES is 1024 (README.md:502 suggests it can be lowered on its own) |
| `Machine.StorePagesDisjoint` | paging/read_bs.c:8-15 | Pages of distinct (store, page) pairs never overlap each other, nor any frame |
| `Machine.IndexSplit` | paging/frame.c:341-355 | Directory and table index together name one virtual page |
| `BackingStore.LookupIsUnique` | paging/bsm.c:114-147 | bsm_lookup finds a mapping exactly when it covers the page: at most one does |
| `BackingStore.SlotBounds` | paging/write_bs.c:8-18 | The page a lookup yields lies inside the store it names, beyond every frame |
| `BackingStore.SlotInjective` | paging/bsm.c:126-144 | A process sees a store page at one virtual page only |
| `BackingStore.MapLookup` | paging/bsm.c:154-188 | After bsm_map a lookup finds exactly the new range in addition, and every old page at its old place |
| `BackingStore.UnmapLookup` | paging/bsm.c:262-301 | After the deletion of a mapping a lookup loses exactly its range |
| `BackingStore.UnmapAfterMap` | paging/bsm.c:154-301 | Unmap undoes map: the whole table is what it was |
| `Sharing.MapSucceeds` | paging/bsm.c:154-188 | A mapping is granted exactly when store number, size and page number are in range and an open store has that many pages |
| `Sharing.XmmapSucceeds` | paging/xm.c:13-33 | xmmap refuses private stores besides and nothing else, and marks its caller as one on public stores; nobody else changes |
| `Sharing.XmunmapSucceeds` | paging/xm.c:41-88 | xmunmap succeeds exactly on a page its caller has mapped; the caller stays marked exactly if it was and still maps a public store |
| `Sharing.SizeIsFirst` | paging/bsm.c:168-187 | In every state of a run an open store has the size that the mapping which opened it asked for |
| `Sharing.MappingShows` | paging/xm.c:13-33 | After xmmap page v + k of the caller is page k of the store, for each of the n pages |
| `Sharing.TwoSharers` | paging/xm.c:13-33 | Two processes that may map an open public store both succeed, one after the other, and see its page k at their own pages |
| `Sharing.SharedByte` | sys/resched.c:65-146 | In any run a byte that one process stores at its page is what any process reads at its own page of the same store page, over any switches, faults and evictions, until another is stored there |
| `FreeFrame.FreeFrmTable` | paging/frame.c:69-83 | Releasing a page clears the directory entry of its table exactly when the count drops to zero, and no other entry of any directory |
| `FreeFrame.FreeFrmEntry` | paging/frame.c:69-135 | Releasing a page leaves the table entries and the contents of all other pages alone |
| `FreeFrame.OthersUntouched` | paging/frame.c:69-135 | After free_frm exactly the released frame has lost its links; all other page frames keep entry, store page and table row |
| `FreeFrame.KeepsInv` | paging/frame.c:69-135 | free_frm keeps counts, directories, tables, queue and map consistent |
| `FreeFrame.KeepsMemory` | paging/frame.c:85-120 | free_frm leaves the flat memory alone: a dirty page reaches its own store page |
| `FreeFrame.SameSlot` | sys/resched.c:65-85 | Two frames that cache one store page, one of them dirty and the other one counting, are the same frame |
| `Replacement.SweepStops` | paging/frame.c:221-241 | The lap ends at the first page frame in clock order whose access bit is clear; all page frames before it had theirs set |
| `Replacement.SweepClears` | paging/frame.c:221-241 | The lap clears the access bits of exactly the page frames it passes over, and changes nothing else |
| `Replacement.SweepEndsEarly` | paging/frame.c:221-241 | The lap ends before going round exactly when some page frame has a clear access bit |
| `Replacement.SecondChanceDefined` | paging/frame.c:211-294 | The search ends without a null link exactly when the hand has a successor and some access bit is clear or a page frame stands between hand and tail: the second pass does not wrap |
| `Replacement.SecondChanceVictim` | paging/frame.c:211-294 | The victim is the first page frame from the hand with a clear access bit, exactly the bits before it being cleared; with none clear, all are cleared and the first page frame after the hand goes |
| `Replacement.AgeAllFrames` | paging/frame.c:304-324 | Ages stay in 0..255, and after a step an age is at least 128 exactly for accessed pages |
| `Replacement.AgingVictim` | paging/frame.c:298-338 | The victim has the least updated age and is the earliest on the queue among equals; there is one exactly when a page frame is queued |
| `Replacement.AgingSparesAccessed` | paging/frame.c:304-335 | An accessed page is evicted only if every page on the queue was accessed |
| `GetFrame.SearchShape` | paging/frame.c:211-338 | A victim search changes access bits, ages and the hand and nothing else, and picks a page frame on the queue |
| `GetFrame.GetFrmKeepsInv` | paging/frame.c:26-63 | get_frm keeps the invariant, whatever it evicts |
| `GetFrame.GetFrmKeepsMemory` | paging/frame.c:26-63 | get_frm leaves the flat memory alone |
| `GetFrame.GetFrmGrants` | paging/frame.c:26-63 | The frame handed out is blank and the last on the queue; no page appears anywhere; map, processes and policy are untouched |
| `GetFrame.GetFrmKeepsTable` | paging/frame.c:53-83 | A table survives get_frm, with its directory entry, exactly unless its only page is the one evicted |
| `GetFrame.GetFrmRevokes` | paging/frame.c:77-83 | If it is, the directory entry that names it is cleared |
| `GetFrame.GetFrmKeepsAbsent` | paging/frame.c:26-63 | get_frm makes no directory entry present and never hands out the frame of a table |
| `GetFrame.EnqueueServesHand` | paging/frame.c:167-172 | A frame joining the queue gives a hand on the queue a successor |
| `GetFrame.HandAfterEviction` | paging/frame.c:53-54 | After a Second-Chance eviction the hand has a successor exactly unless it rested on the table the eviction revoked |
| `PagingEffects.FreeFirst` | paging/frame.c:26-63 | get_frm takes the lowest free frame, and evicts exactly when there is none |
| `PagingEffects.AgingServes` | paging/frame.c:298-338 | Under Aging get_frm never fails: with all frames taken one of them holds a page, since directories are fewer than frames and every table has a page |
| `PagingEffects.PolicySet` | paging/policy.c:13-32 | srpolicy selects the search that follows; Second-Chance starts at the front of the queue |
| `FrameQueue.Queue.constructor` | paging/frame.c:153-164 | The queue starts empty, every link null |
| `FrameQueue.Queue.Enqueue` | paging/frame.c:167-172 | The frame joins the listed ones at the tail; links stay acyclic and end at frm_qtail |
| `FrameQueue.Queue.Find` | paging/frame.c:191-200 | The walk stops at the frame or at null, with the node before it |
| `FrameQueue.Queue.Unlink` | paging/frame.c:202-207 | The list loses exactly that frame; the tail moves back if it was last |
| `FrameQueue.Queue.Remove` | paging/frame.c:185-208 | The list without the frame, in the same order; nothing happens if it is not there |
| `FrameQueue.Queue.ResetLink` | paging/frame.c:140-150 | Resetting a frame that is off the queue clears its stale link |
| `FrameQueue.Queue.Place` | paging/frame.c:222-240 | A link that is not null leads from a queued node, or the head, to the next one on the list |
| `FrameQueue.Queue.DeadEnd` | paging/frame.c:222-240 | A null link leaves the tail or a node that is off the queue |
| `PageFault.AddTableKeepsInv` | paging/pfint.c:60-98 | The frame taken for a table makes the tree whole again, with the new table empty |
| `PageFault.EntryCaches` | paging/frame.c:341-358 | A present entry on the way of a page names the frame that holds the page |
| `PageFault.FillKeepsInv` | paging/pfint.c:115-141 | With the page in place every count is right again, the new table's included |
| `PageFault.NoDirtyCopy` | paging/pfint.c:105-115 | No frame holds unsaved changes to a page that is not resident in the running process, so the store copy is current |
| `FaultStep.SafeForTable` | paging/pfint.c:59-109 | Whether the fault is safe can be told before it, by looking at table and prospective victim |
| `FaultStep.FillRevoked` | paging/pfint.c:100-141 | If the eviction takes the last page of the table being filled, the count is raised on a frame that is free and the directory entry stays absent |
| `FaultStep.FaultKeepsInv` | paging/pfint.c:13-148 | A page fault keeps the invariant exactly when its victim is not the only page of the table it fills (the count rises after the eviction, against README.md:276-279) |
| `FaultStep.FaultMakesResident` | paging/pfint.c:13-148 | After the fault the page is found exactly when the fault was safe |
| `FaultStep.FaultKeepsMemory` | paging/pfint.c:105-141 | A safe fault leaves the flat memory alone |
| `PagingEffects.FaultServed` | paging/pfint.c:59-109 | A legal fault is served exactly when get_frm is, for the page and before that for a table that is missing |
| `PagingEffects.AgingServesFaults` | paging/pfint.c:59-109 | Under Aging every legal fault is served |
| `PagingEffects.AgingReaches` | paging/pfint.c:13-148 | So under Aging every load or store ends well that costs no table its last page |
| `PagingEffects.FaultBrings` | paging/pfint.c:115-141 | The page comes in clean and untouched, into a frame of the running process that records its number |
| `PagingEffects.TableMakes` | paging/pfint.c:60-98 | The frame of a new table records the process and nothing else; the directory names it and no page is present in it |
| `Access.WalkFinds` | paging/frame.c:341-385 | The hardware's walk for a resident page ends at the frame the inverted page table records for it |
| `Access.NotResident` | paging/pfint.c:59-141 | A page is resident exactly when a frame caches it |
| `Access.ReadIsTransparent` | paging/frame.c:341-358 | A read returns the byte of the flat memory and changes only an access bit |
| `Access.WriteIsTransparent` | paging/frame.c:341-358 | A write changes exactly one byte of the flat memory |
| `Switch.FlushCleans` | sys/resched.c:66-85 | The flush makes no page dirty and leaves no page of the process dirty |
| `Switch.LoadSource` | sys/resched.c:136-146 | At the reload the store page behind each resident page of the next process is current |
| `Switch.SwitchKeepsInv` | sys/resched.c:65-146 | A switch keeps the invariant, and afterwards no process on public stores has a dirty page |
| `Switch.SwitchKeepsMemory` | sys/resched.c:65-146 | A switch leaves the flat memory alone, and the resident pages of the next process agree with it |
| `SwitchEffects.SwitchDoes` | sys/resched.c:65-146 | A switch writes exactly the unsaved pages of a live process on public stores that leaves, each to its store page, and leaves them clean; then it reads again exactly the pages of a process on public stores that comes; no other page of a store or frame changes |
| `Lifecycle.FreePagesReleased` | paging/bsm.c:242-258 | The loop releases exactly the page frames of the process in the range; all others stay as they were |
| `Lifecycle.XmmapKeepsInv` | paging/xm.c:13-33 | xmmap keeps the invariant exactly when the caller was made by create, has no mapping in the store yet, and the new range meets none of its others |
| `Lifecycle.UnmapReleases` | paging/bsm.c:196-275 | bsm_unmap releases the pages of the one covering mapping and then drops it |
| `Lifecycle.XmunmapOwners` | paging/xm.c:56-80 | The store field xmunmap leaves fits the mappings the process has left |
| `Lifecycle.XmunmapKeeps` | paging/xm.c:41-88 | xmunmap keeps the invariant and the flat memory |
| `Death.NoTables` | paging/frame.c:77-83 | A process without pages has no tables: kill never frees one itself |
| `Death.DirFound` | sys/kill.c:34-40 | The directory frame kill finds is the one the process uses |
| `Death.DropStoresPurges` | sys/kill.c:43-72 | kill drops every mapping of the process and no other |
| `Death.KillRetires` | sys/kill.c:25-72 | What kill does to a live process, as one step after the release of its pages |
| `Death.KillKeepsInv` | sys/kill.c:17-116 | Killing a live process keeps the invariant |
| `Death.KillKeepsMemory` | sys/kill.c:25-72 | Killing leaves the flat memory alone: each dirty page reached its own store page before its mapping went |
| `Death.KillLeaksNothing` | sys/kill.c:25-72 | Afterwards no frame of any kind and no mapping carries the pid; frames and lookups of other processes are unchanged |
| `PagingEffects.KillForgets` | sys/kill.c:43-79 | kill leaves the entries of all other processes; the slot is free, and forgets public stores but not a private one |
| `Death.KillNullLosesDirectory` | sys/kill.c:76-79 | kill(0) returns SYSERR after having freed the directory the null process runs on |
| `Death.KillDeadPid` | sys/kill.c:43-79 | kill of a free slot does harm exactly when the slot still names an open private store |
| `Birth.StaleBreaks` | paging/frame.c:400-417 | A stale present entry beyond the first four breaks the new directory |
| `Birth.CreateKeepsInv` | paging/frame.c:388-418 | create keeps the invariant exactly when the frame it is given reads as empty beyond the four entries it writes |
| `Birth.CreateKeepsMemory` | sys/create.c:96-106 | create leaves the flat memory alone |
| `PagingEffects.CreateMakes` | sys/create.c:96-106 | create is served exactly when get_frm is, and makes a live process without stores whose directory is that frame |
| `HeapBirth.VcreateKeepsInv` | paging/vcreate.c:105-127 | A vcreate that succeeds keeps the invariant exactly under the same condition on the directory frame |
| `HeapBirth.VcreateFailureLeaksSlot` | paging/vcreate.c:51-116 | Without a closed store, or for a heap of no or more than 256 pages, vcreate fails with its slot marked taken and no directory |
| `HeapBirth.VcreateMemory` | paging/vcreate.c:127-133 | vcreate writes the head of the heap into the first page of its store and changes nothing else |
| `HeapBirth.HeadWords` | paging/vcreate.c:132-133 | The first two words of the head are zero and the number of bytes of the heap, and the rest of the page stays |
| `PagingEffects.VcreateMakes` | paging/vcreate.c:105-135 | vcreate succeeds exactly when a store is closed, the size is right and get_frm is served; the process owns the first closed store at page 4096 |
| `PagingEffects.VcreateSpells` | paging/vcreate.c:127-133 | In the flat memory the first two words of page 4096 of the new process spell the free list of one block of the whole heap; nothing else changes |
| `Boot.LowMemoryIsIdentity` | sys/initialize.c:238-267 | Through the global tables every page below 4096 leads to itself, by an entry that is present, clean and untouched |
| `Boot.BootIsSound` | sys/initialize.c:227-282 | The state after sysinit is sound exactly when the null process's directory frame reads as empty beyond the first four entries |
| `Boot.BootRepresents` | sys/initialize.c:227-282 | It represents what the store pages hold |
| `Failures.BootFails` | sys/initialize.c:227-282 | Memory with an odd fifth word in the fifth frame: the state after sysinit is not sound |
| `Failures.CreateFails` | paging/frame.c:400-417 | The same in the sixth frame: the first create loses the invariant |
| `Failures.XmmapFails` | paging/xm.c:13-33 | A second xmmap whose range meets the first succeeds and loses the invariant |
| `Failures.KillKeepsField` | sys/kill.c:43-56 | kill leaves the number of a private store in the slot it frees |
| `Failures.KillFails` | sys/kill.c:43-79 | A process with a private store is killed, another gets the store, and the first is killed again: the invariant is lost |
| `Failures.UnsetHandFails` | paging/frame.c:211-222 | A Second-Chance search before srpolicy was called follows a null link |
| `FullMemory.FullIsSound` | paging/frame.c:26-63 | A sound state with every frame taken, in which the page that goes next is the only one of its table |
| `FullMemory.FaultFails` | paging/pfint.c:59-141 | From there a fault on another page of that table loses the invariant and does not bring the page in |
| `FullMemory.SearchFails` | paging/frame.c:211-294 | With every access bit set and no page between hand and tail, or the hand on the tail, the search follows a null link |
| `FullMemory.HandFails` | paging/frame.c:53-83 | An eviction that revokes the table on which the hand rests leaves the hand without a successor |
| `Progress.LoadCompletes` | paging/pfint.c:13-148 | A load that can end well is a run of at most two steps, a fault if need be and then the read, and yields the byte of the flat memory |
| `Progress.StoreCompletes` | paging/pfint.c:13-148 | So is a store, which changes exactly its byte |
| `Progress.DeathCompletes` | sys/kill.c:17-116 | A live process can be killed in a step to a sound state in which no frame and no mapping carries its pid |
| `Progress.ExitCompletes` | sys/kill.c:98-100 | The running process can leave the processor to any other live one |
| `Progress.BirthCompletes` | sys/create.c:96-106 | A free slot can become a live process when the frame for its directory reads as empty |
| `Progress.HeapBirthCompletes` | paging/vcreate.c:105-135 | And one with a private heap when a store is closed |
| `Progress.UnmapCompletes` | paging/xm.c:41-88 | A mapped page can be unmapped, and is then not mapped |
| `Progress.PolicyCompletes` | paging/policy.c:13-32 | Either policy can be selected in any state |
| `Kernel.Paging.constructor` | sys/initialize.c:227-282 | Running the initialisation yields the boot state |
| `Kernel.Paging.BsmLookup` | paging/bsm.c:114-147 | The two loops return what the lookup function returns |
| `Kernel.Paging.Retire` | paging/frame.c:124-126 | The frame leaves queue and table |
| `Kernel.Paging.DropRef` | paging/frame.c:77-83 | Count lowered, with the last reference the table and its directory entry go |
| `Kernel.Paging.WriteOut` | paging/frame.c:85-120 | The page is copied to the store page that bsm_lookup finds |
| `Kernel.Paging.FreeFrm` | paging/frame.c:69-135 | In place; the new state is that of Frames.FreeFrm |
| `Kernel.Paging.PtEntry` | paging/frame.c:341-385 | The pointer walk returns the table frame and entry of the page in a frame |
| `Kernel.Paging.FirstLap` | paging/frame.c:221-241 | The loop with the moving hand computes the sweep over one lap |
| `Kernel.Paging.SecondLap` | paging/frame.c:265-291 | The second loop finds the first page frame after the hand, or follows a null link |
| `Kernel.Paging.FrmBySC` | paging/frame.c:211-294 | Result and state are those of Replacement.SearchSC |
| `Kernel.Paging.AgeFrame` | paging/frame.c:305-321 | One frame one step older; the running minimum |
| `Kernel.Paging.FindAged` | paging/frame.c:326-337 | The first page frame of that age |
| `Kernel.Paging.FrmByAging` | paging/frame.c:298-338 | Result and state are those of Replacement.SearchAging |
| `Kernel.Paging.GetFrm` | paging/frame.c:26-63 | Result and state are those of GetFrame.GetFrm |
| `Kernel.Paging.Flush` | sys/resched.c:66-85 | The loop over all frames computes Switch.Flush |
| `Kernel.Paging.Load` | sys/resched.c:136-146 | The loop over all frames computes Switch.Load |
| `Kernel.Paging.SwitchTo` | sys/resched.c:65-146 | Memory effect of a switch: Switch.SwitchTo |
| `Kernel.Paging.BsmMap` | paging/bsm.c:154-188 | Result and map are those of BackingStore.Map |
| `Kernel.Paging.FreeBsm` | paging/bsm.c:72-108 | Closed if private or without mappings |
| `Kernel.Paging.FreePages` | paging/bsm.c:243-258 | The loop computes Lifecycle.FreePages |
| `Kernel.Paging.BsmUnmap` | paging/bsm.c:196-275 | Result and state are those of Lifecycle.BsmUnmap |
| `Kernel.Paging.Xmmap` | paging/xm.c:13-33 | Result and state are those of Lifecycle.Xmmap |
| `Kernel.Paging.FindPublic` | paging/xm.c:61-76 | Whether some open public store has a mapping of the process |
| `Kernel.Paging.Xmunmap` | paging/xm.c:41-88 | Result and state are those of Lifecycle.Xmunmap |
| `Kernel.Paging.FreeAllPages` | sys/kill.c:27-31 | The loop releases every page of the process |
| `Kernel.Paging.FreeDir` | sys/kill.c:34-40 | The first directory frame of the process goes |
| `Kernel.Paging.UnmapPublic` | sys/kill.c:50-65 | The loop over public stores computes Death.UnmapPublic |
| `Kernel.Paging.DropStores` | sys/kill.c:43-72 | Private and public branch |
| `Kernel.Paging.Kill` | sys/kill.c:17-116 | Result and state are those of Death.Kill, the pid check coming last |
| `Kernel.Paging.MakeTable` | paging/pfint.c:60-98 | A new empty table, by the loop over its entries |
| `Kernel.Paging.Fill` | paging/pfint.c:115-141 | Contents, frame entry, table entry and count of the new page |
| `Kernel.Paging.PageIn` | paging/pfint.c:51-148 | Result and state are those of FaultStep.PageIn |
| `Kernel.Paging.Pfint` | paging/pfint.c:13-148 | Legal faults page in, illegal ones kill the process |
| `Kernel.Paging.Create` | sys/create.c:96-106 | Result and state are those of Birth.Create |
| `Kernel.Paging.GetBsm` | paging/bsm.c:54-65 | The first store that is not open |
| `Kernel.Paging.Vcreate` | paging/vcreate.c:105-135 | Results and state are those of HeapBirth.Vcreate |
| `Kernel.Paging.SrPolicy` | paging/policy.c:13-32 | Policy set; for Second-Chance the hand goes to the queue's head |
| `Kernel.Paging.LoadByte` | paging/pfint.c:13-148 | An instruction that reads: fault if need be, then the byte of the flat memory |
| `Kernel.Paging.StoreByte` | paging/pfint.c:13-148 | An instruction that writes: fault if need be, then exactly that byte of the flat memory changes |
| `QSort.MiddleRecord` | lib/libxc/qsort.c:32-33 | The pivot address computed in bytes is the middle record |
| `QSort.RotatedRecords` | lib/libxc/qsort.c:103-120 | What moves the bytes of three blocks moves the records, also with two of them the same |
| `QSort.ExchangeBytes` | lib/libxc/qsort.c:87-101 | Two blocks change places, byte by byte |
| `QSort.RotateBytes` | lib/libxc/qsort.c:103-120 | Three blocks rotate, byte by byte, also with the second and third the same |
| `QSort.LowStep` | lib/libxc/qsort.c:37-46 | Each outcome of the comparison at the low end keeps the partition |
| `QSort.HighStep` | lib/libxc/qsort.c:49-66 | Each outcome of the comparison at the high end keeps the partition |
| `QSort.CrossStep` | lib/libxc/qsort.c:54-64 | A record below the pivot at the high end: rotation or exchange keeps the partition |
| `QSort.ShiftStep` | lib/libxc/qsort.c:82-83 | A record above the pivot at the low end: rotation keeps the partition |
| `QSort.Partition` | lib/libxc/qsort.c:32-84 | Through all goto paths: a rearrangement for any comparison; for a preorder, smaller records, the block equal to the record that was in the middle, larger records |
| `QSort.Qs1` | lib/libxc/qsort.c:16-85 | The range is sorted, a rearrangement, everything else untouched; at most floor(log2 n) + 1 activations |
| `QSort.Qsort` | lib/libxc/qsort.c:5-14 | Sorted permutation for every total preorder; permutation and stack bound for any comparison |
| `QSort.Log2Smaller` | lib/libxc/qsort.c:70-79 | The part recursed on is at most half of what is left, so the depth bound holds |
| `FreeList.CanonicalUnique` | paging/vfreemem.c:41-65 | A sorted list without empty or touching blocks is determined by the bytes it covers |
| `FreeList.RoundMbUp` | h/mem.h:18-18 | Rounding up to eight, but the seven largest 32-bit sizes wrap to zero |
| `FreeList.GetServes` | paging/vgetmem.c:35-62 | An allocation takes bytes that were free, at least as many as asked for, and nothing else; it fails only if no block is large enough; the list stays canonical |
| `FreeList.GetShort` | paging/vgetmem.c:35-62 | A request is served in full exactly up to 2^32 - 8 bytes; above, the block handed out stays free |
| `FreeList.GetStkServes` | sys/getstk.c:24-44 | getstk takes the top of the last block that fits, and nothing else; it fails exactly when no block fits |
| `FreeList.GiveRefuses` | paging/vfreemem.c:41-50 | A release is refused exactly when some byte of the block is free already |
| `FreeList.GiveFrees` | paging/vfreemem.c:51-65 | An accepted release frees exactly the block; the list is coalesced on both sides |
| `FreeList.GiveAfterGet` | paging/vfreemem.c:41-65 | Releasing what was allocated restores the list |
| `FreeList.StackBlockRight` | h/mem.h:26-29 | freestk names the bytes getstk took exactly when the rounded stack size is a multiple of eight |
| `HeapRun.StepSound` | sys/getmem.c:12-40 | Every operation keeps each byte of the initial list, of one block or several, free or in exactly one live block, all sizes multiples of eight, the list canonical |
| `HeapRun.StepServes` | sys/getstk.c:24-44 | An operation is served exactly if some free block is large enough, with bytes that were free, a stack from the top of the last such block; otherwise nothing changes; a release ends the life of exactly its block |
| `HeapRun.NeverRefused` | sys/freemem.c:23-31 | The release of a live block is never refused |
| `HeapRun.AllReleased` | sys/freemem.c:12-46 | Once every block has been released, in any order, the list is the initial one, whatever canonical list that was |
| `HeapRun.SameLiveSameList` | paging/vfreemem.c:41-65 | Runs that leave the same live blocks leave the same list |
| `SharedHeap.SeesOnce` | paging/vgetmem.c:27-44 | Following the links from the one header word, a process finds at most one list |
| `SharedHeap.OthersCall` | paging/vcreate.c:127-133 | vmemlist is set nowhere, so all processes share one header word: a call of another process leaves a process its list exactly when it leaves that word |
| `SharedHeap.HeaderLeft` | paging/vgetmem.c:42-59 | Which calls leave the word, told before the call: an allocation not served from the first block, a release that is refused or lies behind the first block, a vcreate when the word happens to point to the beginning of a heap |
| `SharedHeap.OthersCallExactly` | paging/vfreemem.c:38-65 | So whether the call of another process leaves a process its list can be told before it |
| `SharedHeap.KeepsItsList` | h/proc.h:79-79 | Over any run of calls of several processes: at every point a process finds the list it would have with a header of its own exactly when no call of another has changed the word |
| `SharedHeap.ProcessHeapRestored` | paging/vcreate.c:127-133 | Then the heap of n pages that vcreate set up is sound, and with everything released it is the single initial block again |
| `SharedHeap.LeftAlone` | paging/vcreate.c:127-133 | So it is when no other process is vcreated, allocates or releases meanwhile |
| `SharedHeap.SecondHeapTakesOver` | paging/vgetmem.c:27-62 | Two vcreated processes, and the second allocates: the first, which holds nothing, no longer finds any list |
| `SharedHeap.HandedOutTwice` | paging/vcreate.c:127-133 | A vcreate after an allocation of the first process lets the same bytes be handed out to it again |
| `MemList.List.constructor` | paging/vcreate.c:127-133 | A list of one block behind the given header word |
| `MemList.List.WithHole` | sys/initialize.c:149-159 | A list of two blocks, below and above the hole |
| `MemList.List.Getmem` | paging/vgetmem.c:29-66 | Result and list are those of FreeList.Get, on the linked nodes |
| `MemList.List.Getstk` | sys/getstk.c:12-45 | Result and list are those of FreeList.GetStk for every size; storing the size in the top word spoils the list exactly when the size rounds to zero and the last block has eight bytes |
| `MemList.List.Place` | paging/vfreemem.c:41-44 | The walk finds the place of an address |
| `MemList.List.Insert` | paging/vfreemem.c:51-65 | Linking with coalescing yields FreeList.Give |
| `MemList.List.Freemem` | sys/freemem.c:12-46 | Result and list are those of FreeList.Give, with the checks on address and size |
| `DeltaList.InsertdExact` | sys/insertd.c:16-25 | The new process has exactly its delay; no other remaining time changes |
| `DeltaList.UnsleepExact` | sys/unsleep.c:29-33 | Early removal changes no other remaining time |
| `DeltaList.TickExact` | sys/clkint.S:19-24 | A tick lowers every remaining time by one and readies exactly those that reach zero |
| `DeltaList.ZeroSlips` | sys/clkint.S:21-24 | With a zero key in front the tick readies it and everyone else keeps the time left |
| `DeltaList.TickRightWhen` | sys/clkint.S:19-24 | A tick is exact exactly when the list is empty, its first key is positive, or nobody has time left |
| `DeltaList.WakesOnTime` | sys/wakeup.c:15-18 | A sleeper of n ticks stays through n - 1 ticks and is readied by the n-th, whatever others do |
| `DeltaList.AdvanceEffect` | sys/ssclock.c:38-46 | A backlog lowers every remaining time by its length, but not below zero |
| `DeltaList.CatchUpIsTicks` | sys/ssclock.c:35-47 | A backlog of m has the effect of m ticks: same processes, same order, same list |
| `DeltaList.DeferredClock` | sys/ssclock.c:35-47 | That is so exactly when the list is empty, its first key is positive, or the backlog exceeds the last sleeper's time |
| `QLists.JoinPuts` | sys/queue.c:18-24 | Linking a process between two neighbours puts it there, in the one array all lists share |
| `QLists.PartTakes` | sys/queue.c:36-38 | Unlinking takes the process out of whatever list it is in; all other lists stay |
| `QTable.InsertdFrom` | sys/insertd.c:16-18 | What the search of insertd passes over and what is left of the key |
| `QTable.UnsleepAt` | sys/unsleep.c:29-33 | What removal at a position does to the delta list |
| `QTable.Table.Newqueue` | sys/newqueue.c:11-26 | An empty list between a fresh head and tail |
| `QTable.Table.MakeLists` | sys/initialize.c:209-214 | All the lists sysinit makes, each empty |
| `QTable.Table.Enqueue` | sys/queue.c:11-25 | At the tail; every other list unchanged |
| `QTable.Table.Dequeue` | sys/queue.c:32-40 | Out of its list; every other list unchanged |
| `QTable.Table.Getfirst` | sys/getitem.c:11-19 | The first process, or EMPTY |
| `QTable.Table.Getlast` | sys/getitem.c:27-35 | The last process |
| `QTable.Table.FindKey` | sys/insert.c:16-18 | The first entry whose key is not smaller |
| `QTable.Table.Insert` | sys/insert.c:11-25 | Into a list in key order, before equal keys |
| `QTable.Table.FindDelta` | sys/insertd.c:16-18 | Place and remaining key |
| `QTable.Table.InsertDelta` | sys/insertd.c:11-27 | The list is that of DeltaList.Insertd |
| `QTable.Table.Withdraw` | sys/unsleep.c:29-33 | The list is that of DeltaList.Unsleep |
| `SchedRun.StatesAndListsAgree` | sys/resched.c:29-107 | In every reachable state: READY iff on the ready list, WAIT iff on its semaphore's list, SLEEP or TRECV iff on clockq, nobody twice, exactly one CURR, the null process CURR or READY, list lengths max(0, -semcnt), sltop and slnempty right |
| `SchedRun.HighestRuns` | sys/resched.c:29-107 | After every call and interrupt no ready process outranks the running one, and the ready list follows the current priorities |
| `SchedRun.RunInv` | sys/initialize.c:193-215 | The whole invariant holds from start on |
| `SchedRun.StepKeeps` | sys/ready.c:12-24 | Every system call and the clock interrupt keep the invariant, also when other processes run before the handler or strtclk goes on after wakeup |
| `SchedRun.InterruptIsTick` | sys/clkint.S:19-24 | The interrupt does to clockq what a tick does to a delta list, and those it takes off are ready or running |
| `SchedRun.BacklogIsTicks` | sys/ssclock.c:35-51 | strtclk catches up with the backlog like that many ticks, under the exact condition |
| `SchedRun.NothingIsDeferred` | sys/clkint.S:7-31 | The handler never looks at defclk, so the backlog is zero in every reachable state |
| `SchedRun.SleeperWakes` | sys/sleep10.c:14-32 | In any run a sleeper of n ticks stays asleep through n - 1 interrupts and is ready or running after the n-th, unless killed or sent a message |
| `SchedRun.DelayFits` | sys/sleep10.c:22-23 | The delay handed to insertd is the one meant exactly up to the bound at which the product leaves an int |
| `SchedOps.ReschedKeeps` | sys/resched.c:29-107 | resched leaves a running process that outranks or equals every ready one |
| `SchedOps.DispatchesInOrder` | sys/insert.c:16-23 | Among equal priorities the one that became ready first is dispatched first |
| `SchedTurns.RoundRobin` | sys/resched.c:29-62 | In any run a process that has given up the processor does not get it back while another stays ready that was ready then and that it does not outrank, unless chprio names one of them |
| `SchedTurns.InTurn` | sys/insert.c:16-23 | Of two ready processes the one of higher priority, or of equals the one that became ready first, gets the processor first |
| `SchedTurns.TenTicks` | sys/clkint.S:25-27 | In any run a process that is given the processor keeps it for fewer than ten ticks while one that it does not outrank is ready |
| `SchedTurns.SliceEnds` | sys/clkint.S:25-27 | Fewer ticks pass than are left of its time slice |
| `SchedTurns.StepTurn` | sys/resched.c:29-62 | Every call and interrupt keeps the order of turns |
| `SchedEffects.StepDoes` | sys/ready.c:12-24 | The whole effect of every call and interrupt, told from the state before: where each process goes, its priority, message and answer, every count and waiting list, the sleep queue and the time slice; a caller that could go on and does strictly outranks every ready process |
| `SchedEffects.ResumeStarts` | sys/resume.c:12-27 | A resumed process is ready or running, running at once exactly if it outranks the caller; no priority, message or semaphore changes |
| `SchedEffects.StaysSuspended` | sys/resume.c:19-24 | In any run a suspended process stays so, off all lists, until a resume or kill names it |
| `SchedEffects.AwakeAfterResume` | sys/resume.c:24-24 | And right after the resume it is ready or running |
| `SchedEffects.ResumeDoes` | sys/resume.c:12-27 | resume readies a suspended process and does nothing to any other |
| `SchedEffects.SuspendDoes` | sys/suspend.c:13-36 | suspend takes exactly the one process off the ready list or the processor |
| `SchedEffects.ChprioDoes` | sys/chprio.c:11-37 | The priority of the process is the one given, and no other field of any process changes |
| `SchedEffects.SignalnDoes` | sys/signaln.c:14-31 | Exactly the first n who wait are released, and the count is n higher |
| `SchedEffects.ScreateDoes` | sys/screate.c:16-30 | The new semaphore has the count given and nobody waits for it |
| `SchedEffects.BornDoes` | sys/create.c:56-100 | A new process is suspended, with the priority given and without a message |
| `SchedEffects.DieDoes` | sys/kill.c:98-113 | A killed process is free and off whatever list it was on; a count it waited for is one higher |
| `SchedEffects.CollectDoes` | sys/recvclr.c:12-25 | A message once taken is gone |
| `SchedEffects.SleepDoes` | sys/sleep10.c:14-32 | The caller sleeps for the product of count and unit; a sleep of nothing only yields |
| `SchedEffects.RecvtimDoes` | sys/recvtim.c:14-39 | A caller without a message waits for one that long, one with a message takes it |
| `SchedEffects.TickDoes` | sys/clkint.S:19-24 | The interrupt readies exactly those whose time has come |
| `SchedEffects.StartDoes` | sys/ssclock.c:24-48 | The start that ends the deferral catches up with the backlog and charges it to the time slice |
| `SchedEffects.RestDoes` | sys/clkint.S:25-27 | A tick off the time slice, and one that is used up yields to an equal |
| `SchedEffects.DeferralsNest` | sys/ssclock.c:13-34 | In any run the clock is deferred as deep as there are stops not yet matched by starts |
| `SchedEffects.Defers` | sys/ssclock.c:24-48 | Only the two calls change the depth, and only the start that ends the deferral takes up the deferred ticks, all of them |
| `SchedFair.FirstComeFirstServed` | sys/signal.c:24-25 | In any run, of two processes waiting for one semaphore the later one is not released, short of being killed, while the earlier one still waits |
| `SchedFair.StepIsFair` | sys/wait.c:26-31 | Every single call keeps the order of arrival in each waiting list |
| `SchedFair.WaitJoins` | sys/wait.c:26-31 | The caller passes if the count is positive, and otherwise waits at the end of the list; the count drops by one |
| `SchedFair.SignalReleases` | sys/signal.c:24-25 | The one that has waited longest is ready or running afterwards, nobody else leaves the list; the count rises by one |
| `SchedFair.DeleteReleases` | sys/sdelete.c:25-34 | Everyone who waited is ready or running, with DELETED for an answer |
| `SchedFair.ResetReleases` | sys/sreset.c:26-31 | Everyone who waited is ready or running, and the count is the one given |
| `SchedFair.SendDelivers` | sys/send.c:18-30 | An accepted message is the receiver's; a receiver that waited is ready or running and off clockq |
| `SchedOps.WaitKeeps` | sys/wait.c:14-37 | wait keeps the invariant |
| `SchedOps.SignalKeeps` | sys/signal.c:14-28 | signal keeps the invariant |
| `SchedOps.SignalnKeeps` | sys/signaln.c:14-31 | signaln keeps the invariant |
| `SchedOps.SresetKeeps` | sys/sreset.c:14-34 | sreset keeps the invariant: the queue is emptied before the count is set |
| `SchedOps.SdeleteKeeps` | sys/sdelete.c:14-37 | sdelete keeps the invariant: a free semaphore has no waiters |
| `SchedOps.ScreateKeeps` | sys/screate.c:16-30 | screate keeps the invariant |
| `SchedCalls.SuspendKeeps` | sys/suspend.c:13-36 | suspend keeps the invariant |
| `SchedCalls.ResumeKeeps` | sys/resume.c:12-27 | resume keeps the invariant |
| `SchedCalls.ChprioKeeps` | sys/chprio.c:11-37 | chprio keeps the invariant: the ready list follows the new priority |
| `SchedCalls.BornKeeps` | sys/create.c:56-100 | A new process, suspended, keeps the invariant |
| `SchedCalls.DieKeeps` | sys/kill.c:98-113 | kill keeps the invariant from every state, with the count of a waited-for semaphore |
| `SchedCalls.SendKeeps` | sys/send.c:12-33 | send keeps the invariant; a timed wait leaves clockq |
| `SchedCalls.ReceiveKeeps` | sys/receive.c:12-28 | receive keeps the invariant |
| `SchedCalls.CollectKeeps` | sys/recvclr.c:12-25 | Taking a message keeps the invariant |
| `SchedCalls.SleepKeeps` | sys/sleep10.c:14-32 | The sleep calls keep the invariant |
| `SchedCalls.RecvtimKeeps` | sys/recvtim.c:14-39 | A timed receive keeps the invariant |
| `SchedCalls.WakeAllKeeps` | sys/wakeup.c:15-16 | The loop of wakeup readies those at the front and leaves the rest |
| `SchedCalls.ClkintKeeps` | sys/clkint.S:19-24 | A clock interrupt keeps the invariant, as far as its call of wakeup |
| `SchedCalls.PreemptKeeps` | sys/clkint.S:25-27 | And so does the rest of the handler, whichever process runs by then |
| `SchedCalls.StrtclkKeeps` | sys/ssclock.c:24-48 | strtclk keeps the invariant with any backlog, as far as its call of wakeup |
| `SchedCalls.OverdueKeeps` | sys/ssclock.c:49-50 | And so does the rest of strtclk |
| `Processes.Kernel.constructor` | sys/initialize.c:193-215 | All processes but the null one free, all lists empty |
| `Processes.Kernel.MakeReady` | sys/ready.c:12-24 | Over the shared array of links; the new state is that of Sched.MakeReady |
| `Processes.Kernel.Resched` | sys/resched.c:29-107 | Over the shared array of links; the new state is that of Sched.Resched |
| `Processes.Kernel.Wait` | sys/wait.c:14-37 | Over the shared array of links; the new state is that of Sched.Wait, and SYSERR is reported exactly where the source returns it |
| `Processes.Kernel.Signal` | sys/signal.c:14-28 | Over the shared array of links; the new state is that of Sched.Signal, and SYSERR is reported exactly where the source returns it |
| `Processes.Kernel.Signaln` | sys/signaln.c:14-31 | Over the shared array of links; the new state is that of Sched.Signaln, and SYSERR is reported exactly where the source returns it |
| `Processes.Kernel.ReleaseAll` | sys/sdelete.c:28-32 | The loop readies all waiters in order |
| `Processes.Kernel.Sreset` | sys/sreset.c:14-34 | Over the shared array of links; the new state is that of Sched.Sreset, and SYSERR is reported exactly where the source returns it |
| `Processes.Kernel.Sdelete` | sys/sdelete.c:14-37 | Over the shared array of links; the new state is that of Sched.Sdelete, and SYSERR is reported exactly where the source returns it |
| `Processes.Kernel.Screate` | sys/screate.c:16-30 | Over the shared array of links; the new state is that of Sched.Screate, and SYSERR is reported exactly where the source returns it |
| `Processes.Kernel.Suspend` | sys/suspend.c:13-36 | Over the shared array of links; the new state is that of Sched.Suspend, and SYSERR is reported exactly where the source returns it |
| `Processes.Kernel.Resume` | sys/resume.c:12-27 | Over the shared array of links; the new state is that of Sched.Resume, and SYSERR is reported exactly where the source returns it |
| `Processes.Kernel.Chprio` | sys/chprio.c:11-37 | Over the shared array of links; the new state is that of Sched.Chprio, and SYSERR is reported exactly where the source returns it |
| `Processes.Kernel.Born` | sys/create.c:56-100 | Over the shared array of links; the new state is that of Sched.Born |
| `Processes.Kernel.Unqueue` | sys/unsleep.c:14-40 | Out of clockq with sltop and slnempty following |
| `Processes.Kernel.Die` | sys/kill.c:98-113 | By state: the case analysis at the end of kill, with its fall-throughs |
| `Processes.Kernel.Send` | sys/send.c:12-33 | Over the shared array of links; the new state is that of Sched.Send, and SYSERR is reported exactly where the source returns it |
| `Processes.Kernel.Receive` | sys/receive.c:12-24 | Over the shared array of links; the new state is that of Sched.Receive |
| `Processes.Kernel.Collect` | sys/recvclr.c:12-25 | Over the shared array of links; the new state is that of Sched.Collect |
| `Processes.Kernel.SleepFor` | sys/sleep10.c:14-32 | Over the shared array of links; the new state is that of Sched.SleepFor, and SYSERR is reported exactly where the source returns it |
| `Processes.Kernel.Recvtim` | sys/recvtim.c:14-38 | Over the shared array of links; the new state is that of Sched.Recvtim, a waiting message is returned, and SYSERR is reported exactly where the source returns it |
| `Processes.Kernel.Wakeup` | sys/wakeup.c:13-21 | Over the shared array of links; the new state is that of Sched.Wakeup |
| `Processes.Kernel.Clkint` | sys/clkint.S:19-24 | Over the shared array of links; the new state is that of Sched.Clkint |
| `Processes.Kernel.Preempt` | sys/clkint.S:25-27 | Over the shared array of links; the new state is that of Sched.Preempt |
| `Processes.Kernel.Stopclk` | sys/ssclock.c:15-18 | Over the shared array of links; the new state is that of Sched.Stopclk |
| `Processes.Kernel.TakeBacklog` | sys/ssclock.c:38-46 | The loop over the keys computes DeltaList.Advance on the shared table |
| `Processes.Kernel.Strtclk` | sys/ssclock.c:24-48 | Over the shared array of links; the new state is that of Sched.Strtclk |
| `Processes.Kernel.Overdue` | sys/ssclock.c:49-50 | Over the shared array of links; the new state is that of Sched.Overdue |
| `Tftp.LoadsTheFile` | mon/montftp.c:29-84 | Under any loss, duplication, delay and reordering: memory holds the first 512 * (block - 1) bytes of the file, BOOT_DONE means all of it, and at most 1 + MON_MAX_TRY read requests go out (sections 2 and 6 of RFC 1350) |
| `Tftp.NeverOverruns` | mon/montftp.c:63-66 | An honest block is never copied past the end of the file's image |
| `Tftp.WireNumbers` | mon/montftp.c:36-38 | Block numbers below 2^16 are told apart on the wire; as a signed short they are themselves up to 32767 |
| `Tftp.DoneStays` | mon/monudp.c:40-80 | Done or given up, nothing changes but time |
| `Tftp.DoneIsShort` | mon/montftp.c:47-81 | A boot that is done had a file of at most 32767 blocks |
| `Tftp.InOrderCompletes` | mon/montftp.c:47-81 | Blocks in order complete the boot exactly when there are at most 32767 |
| `Tftp.TimerAfterData` | mon/monudp.c:63-71 | After a block that is not the last, a timer runs exactly if it was the expected one or a neighbour: any other stale block stops it for good |
| `Tftp.AcksWhatItHas` | mon/montftp.c:52-71 | An acknowledgement names a block the client has, except exactly when the block after the expected one arrives |
| `TftpRun.TimerRepeats` | mon/montimer.c:22-31 | The timer acknowledges the block before the expected one, whose last byte is the last one in memory |
| `TftpRun.AcksHeld` | mon/montftp.c:29-84 | In any run every acknowledgement, on data or on a timeout, names a block already in memory, except exactly those sent when the block after the expected one arrives |
| `TftpRun.GivesUpLate` | mon/monboot.c:34-106 | In any run the client gives up only after 1 + MON_MAX_TRY requests of one kind or five repeated acknowledgements |
| `TftpRun.Silence` | mon/monboot.c:36-99 | Without any reply the client gives up after 14 seconds and four requests |
| `TftpRun.AsksAgain` | mon/montimer.c:11-20 | A request without a reply is repeated when its timer runs out, one second later each time |
| `TftpRun.AcksAgain` | mon/montimer.c:22-37 | A transfer that stalls repeats its acknowledgement every two seconds, five times, and then fails |
| `TftpRun.RepeatsCounted` | mon/montimer.c:22-37 | In any run the client counts the acknowledgements its timer has repeated since the last read request, however much data arrives in between, and repeats five at most |
| `TftpRun.RefusalAsksAgain` | mon/monudp.c:51-70 | A refused BOOTP request, or an error from the TFTP server, makes the client ask again at once, from the first block, or give up after four requests |
| `TftpRun.Ignored` | mon/monudp.c:45-79 | A packet that nobody waits for changes nothing |
| `TftpRun.CleanBoot` | mon/monboot.c:34-106 | Without loss the client asks once for each reply and has the whole file, if that has at most 32767 blocks |
| `BootLoader.Monitor.constructor` | mon/monboot.c:31-32 | The client's first state |
| `BootLoader.Monitor.Ack` | mon/montftp.c:203-207 | Acknowledgement and timer |
| `BootLoader.Monitor.Copy` | mon/montftp.c:63-65 | Byte by byte into memory, nothing else touched |
| `BootLoader.Monitor.TftpIn` | mon/montftp.c:29-84 | State and memory are those of Tftp.TftpIn |
| `BootLoader.Monitor.UdpIn` | mon/monudp.c:40-80 | State and memory are those of Tftp.UdpIn |
| `BootLoader.Monitor.Poll` | mon/monboot.c:34-106 | One round of the boot loop |
| `BootLoader.Monitor.Second` | mon/montimer.c:10-42 | The timer's transitions |
| `BootLoader.Monitor.Receive` | mon/monudp.c:59-73 | From an honest server: memory keeps holding the beginning of the file, all of it when done |
| `Numbers.LowNumeral` | lib/libxc/doprnt.c:237-254 | A buffer filled to width w holds the numeral backwards and then zeros |
| `Numbers.NumeralReads` | lib/libxc/doscan.c:150-172 | A numeral reads as its number |
| `Numbers.OctalTop` | lib/libxc/doprnt.c:277-295 | Eleven octal digits with the top one masked are the digits of the 32 bits |
| `Numbers.FirstDigitPlus` | lib/libxc/doprnt.c:123-133 | Adding to the first character of a numeral adds to its first digit |
| `Numbers.Fill` | lib/libxc/doprnt.c:244-248 | The digit loop |
| `Numbers.Emit` | lib/libxc/doprnt.c:249-253 | Leading zeros skipped, the rest copied from the top, one digit always |
| `Numbers.Prtl` | lib/libxc/doprnt.c:237-254 | The loops of _prtl10, _prtl16 and _prtl2 by base and width: the numeral of the low digits |
| `Numbers.Prtl16` | lib/libxc/doprnt.c:316-333 | The hexadecimal numeral of the 32 bits |
| `Numbers.Prtl2` | lib/libxc/doprnt.c:358-375 | The binary numeral of the 32 bits |
| `Numbers.Prtl8` | lib/libxc/doprnt.c:277-295 | The octal numeral of the 32 bits |
| `Numbers.TakeBillions` | lib/libxc/doprnt.c:128-131 | At most three billions are taken off until the value reads as positive |
| `Numbers.PrintU` | lib/libxc/doprnt.c:121-133 | %u prints the numeral of the 32 bits, also with the top bit set |
| `Numbers.PrintD` | lib/libxc/doprnt.c:106-133 | %d prints sign and magnitude, also for the value without a positive counterpart |
| `Numbers.SkipBlanks` | lib/libxc/doscan.c:140-140 | The blanks at the front |
| `Numbers.ReadDigits` | lib/libxc/doscan.c:150-172 | The digit loop: shifts and additions that wrap at every step leave the digits' value wrapped once |
| `Numbers.Innum` | lib/libxc/doscan.c:109-182 | Sign, digits, how far the number reaches, and whether the input ends there |
| `Numbers.Atoi` | lib/libxc/atoi.c:1-20 | The value at the front of the text, wrapped to an int |
| `Numbers.ScanPrinted` | lib/libxc/doscan.c:140-174 | Scanning finds a printed number between blanks and whatever cannot continue it |
| `Numbers.DecimalRoundTrip` | lib/libxc/doscan.c:140-174 | Scanning what %d prints returns the value, for every long |
| `Numbers.UnsignedRoundTrip` | lib/libxc/doscan.c:140-174 | Scanning what %u, %o and %x print, in the same base, returns the value with its sign |
| `Numbers.AtoiRoundTrip` | lib/libxc/atoi.c:1-20 | atoi undoes %d, for every int |
| `Numbers.CaseBlind` | lib/libxc/doscan.c:151-166 | Scanning in base sixteen reads small and capital letters alike |
| `Numbers.NewlineApart` | lib/libxc/doscan.c:140-140 | A newline before the number is skipped by scanf and ends the text for atoi |

## Left out

- PagingRun.PagingIsTransparent: its runs consist of steps whose callers keep the conditions listed above; the failing steps are covered by the if-and-only-if lemmas instead.
- SchedRun.SleeperWakes: excludes a timed receive of zero ticks in between, which slips a tick (`DeltaList.TickRightWhen` has the exact condition).
- HeapRun.StepSound: a release names a live block by its own size; releasing part of a block, or two neighbours at once, is outside the runs, though `FreeList.GiveFrees` covers it.
- Tftp.LoadsTheFile: files of fewer than 65536 blocks; a longer one repeats block numbers on the wire, and what the client then holds is not stated.
- HeapRun.AllReleased: initial lists whose blocks begin and end at multiples of eight; sysinit cuts the lengths of its blocks to words only, and the remainder of four bytes that an allocation can then leave is too small for a node.
- SharedHeap.ProcessHeapRestored: what a call does that finds no list at the header is left open.
- MemList.List.Freemem: a block whose end lies beyond the 32-bit address space is outside its precondition, because the code adds without looking.
- Numbers.Innum: the 64 characters of the buffer that repeats the digits, short results, suppressed assignments, strings, character classes and floating point of scanf.
- Numbers.PrintD: field widths, fill characters, strings and single characters of printf, and the 16-bit variants that are not used where int and long have one size.
- conf.h is not part of this model, being generated: NPROC and NSEM are 50 here.
- A machine without a clock, on which sleep and recvtim return SYSERR (clkruns is 1 here).
- When the interrupted process, or the caller of strtclk, goes on after wakeup is not tied to the one that was put off: those steps may come at any time, which covers the real orders and others.
- The write of vcreate to the header word at address zero lies outside the flat memory of the stores; it is modelled in SharedHeap.
- There is no TLB: a cleared present bit takes effect at once.
- Table and directory entries keep the present, access and dirty bits and the base; the other flag bits never change anything. The bases of absent entries of a fresh table, which the code leaves as they were, are written as zero.
- resched is split: its effect on memory is in the paging modules, its choice of the next process in the scheduling modules.
- xmmap on a store index out of range reads beyond the store table before the index is checked; the model refuses such an index.
- release_bs of a live private store, which would close it under its owner; get_bs, which only reports a size.
- The priorities that chprio, suspend and resume return; the model reports success and failure only.
- kill's message to the process that waits for it, the closing of its devices, and the release of its stack.
- Failure of create for lack of a slot or a stack, the choice of slots by newpid and newsem, and the frame built on a new stack.
- The mutual-exclusion semaphore of the clock, which sysinit marks free again after clkinit has created it.
- The time of day, tick counters, interrupt masks and context-switch assembly; disable and restore make a call atomic.
- Memory words of free-list nodes are kept in maps keyed by address; the bytes between them are not modelled.
- Building packets, ARP, parsing BOOTP and checksums; running out of buffers; the TFTP request of boot_xinu is one step.
- Devices, terminals, buffer pools, string functions, floating point.
