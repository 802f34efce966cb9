# Verification model of the paging operating-system simulator

The repository simulates an operating system in four processes: a paged memory server (`memoria`), a CPU
with an MMU and a TLB (`cpu`), a kernel scheduler (`kernel`) and a console that parses programs
(`consola`), joined by a byte format (`shared`). This project models their logic in Dafny and proves what
the system is for: that demand paging, page replacement, swapping, address translation, TLB caching and
preemption are invisible to the programs that run, and that nothing is lost on the way.

`dafny verify dfyconfig.toml` checks the whole project.

## How it is organised

Code that works in place is modelled as classes whose methods have the source's loops; each method is proved
equal to a function on values, and the properties are lemmas about those functions.

- **Memory server.** `Clock` gives the victim of CLOCK and CLOCK-M in closed form and proves that the unbounded
  search finds it. `Paging` is the server as a value: tables, frames, RAM, swap file, hand, and the effect of
  every request. `PagingRuns` has the invariants over all sequences of requests and the isolation theorem;
  `ClockRuns` is a run in which CLOCK-M passes over the page it should prefer. `Eviction` says entry by entry
  what a fault writes and reads. `MemoryServer` is the server as the code runs it: page-entry objects updated in
  place inside nested lists, two clock pointers kept between calls, one RAM buffer. `ShippedSwap` states what
  the swap code does as written, and what the memory server does with it.
- **CPU.** `Mmu` is the address arithmetic. `TlbQueue` is the TLB as an ordered queue, with LRU inclusion on
  traces of lookups and removals in which no stale entry is hit (`TlbQueue.StaleHitBreaksInclusion` is why);
  `TlbRuns` proves that no run of the machine hits one, so that inclusion holds in all of them. `Replacement`
  says by position which entry is overwritten next under FIFO and LRU. `TlbUnit` is the timestamped list of the
  code, refined to that queue. `Coherence` is the step system of memoria's kernel thread, the consistency thread
  and the CPU. `Programs` and `Alone` decode instructions and run a program by itself on a flat memory.
  `Machine` is the whole machine in atomic steps, and `Transparency` proves that each process in it is its
  program running alone. `Redispatch` says when a MOV whose fault was resolved faults again, and `Thrashing` is
  a run in which it always does. `Dispatch` is one turn on the CPU and the bound on turns. `Cpu` is
  `mov_execute` and `instruction_cycle` as methods over the `Memory` and `Tlb` objects, proved to be steps of
  `Machine`. `Reply` joins it to the wire: the PCB it sends back and what the kernel decodes.
- **Kernel.** `Scheduling` is the step system of all threads over queues and semaphores; `Scheduler` has the
  scheduler's functions as methods over mutable queues. `Queues` says what each step does to the queues, and
  `Places` where it puts each process. `KernelRuns` runs the scheduler and the machine together: the scheduler
  gives the CPU to a process that can run, gets back the reason its dispatch ends for, and never deadlocks.
- **Formats.** `Wire` and `Streams` are the PCB encoding as functions and as buffer and socket loops;
  `WireLayout` says which bytes stand where. `ProgramText`, `Parser` and `LogExtras` are the parser and the
  printer as functions and as loops; `TextEnds` is what blanks and newlines at the end of a line or of the file
  do to any text. `Submission` joins parser and wire, and `Samples` follows one program from its text to its
  end.

## Corrections and assumptions

In these places the model follows what the code is meant to do; `ShippedSwap` and `Coherence` state what the
code as written does instead.

- *Swap position.* memoria/src/handle_kernel.c:207-208 takes the position after the write, so it names the end
  of the image, and the reader seeks to it as the start. `Paging` and `MemoryServer` record the start.
  `ShippedSwap.ShippedRoundTrip` says exactly when the uncorrected code still returns the right bytes: they are
  those appended next and, past the end of the file, whatever the buffer from `malloc` held.
- *Page unit.* Frames are `page_size` bytes apart, while swap copies `page_size * sizeof(int)` bytes
  (memoria/src/handle_kernel.c:181, 196, 207). The model uses `page_size` bytes throughout.
  `ShippedSwap.ShippedUnitOverruns` says exactly when the uncorrected copy does no damage.
- *TLB lock.* cpu/src/cpu.c:311 releases the lock on the miss branch only. `Coherence` has both versions
  (`unlocksOnHit`); `Coherence.ShippedStuckIff` says exactly when the lock stays taken in the code as written,
  `Coherence.ShippedHitIsLast` that it then stops all later translations and invalidations.
- *A MOV is one step* of `Machine`, not split by a fault resolution, and the invalidation of a frame is applied
  with the fault that sends it. `Coherence` makes neither assumption: `Coherence.AccessUndisturbed` says exactly
  when a translation obtained earlier is right all through the access, and `Coherence.AccessDisturbed` is a run
  in which the frame is handed out in between and it is not.
- *Words* lie inside their page (`page_offset + 4 <= page_size`); addresses name an existing segment and are
  below 2^31, since `mmu` takes an `int`. `PagingRuns.StaysInFrame` shows the first is needed.
- *Program counter.* kernel/src/kernel.c:113-121 does not set it; it starts at 0 here.
- *Configuration.* At least one frame, a positive page size, a RAM that holds all frames.

## Findings

Properties that the code does not have in general, each with its exact condition, most also with a concrete
input.

- memoria/src/handle_kernel.c:257-281: CLOCK-M does not always prefer an unused clean page.
  `Clock.PrefersUnusedClean` has the condition, `ClockRuns.UnusedCleanPassedOver` a run from the initial memory.
- memoria/src/handle_kernel.c:207-208: saved pages come back only by luck. `ShippedSwap.ShippedRoundTrip` has
  the condition; `ShippedSwap.ShippedLosesPage` is every memory that evicts a written page and then wants it
  back, `ShippedSwap.ShippedStoreLost` a run from the initial memory that loses a word.
- memoria/src/handle_kernel.c:181: a page copied back overruns its frame. `ShippedSwap.ShippedUnitOverruns` says
  when that does no damage.
- memoria/src/handle_kernel.c:142-188: a page brought in need not be there when its MOV runs again.
  `Redispatch.FaultsAgainIff` has the condition; in `Thrashing.NeitherGetsOn` two processes take each other's
  page for ever.
- cpu/src/cpu.c:311: the TLB lock stays taken from the first time a page is found in the TLB.
  `Coherence.ShippedStuckIff` has the condition; two MOVs on one page are enough, `Coherence.ShippedGetsStuck`.
- consola/src/parser.c:166-178: blanks at the end of a program file change what is read; behind an accepted text
  they must be none at all. The file is rejected if the first of them is a newline; if it is a space or a tab
  the last instruction gets a junk parameter: `TextEnds.BlanksAtEnd`, `TextEnds.BlanksAlone`. So no accepted
  text with a newline behind it is read as that text: `TextEnds.FinalNewline`; "EXIT" and a newline is one:
  `TextEnds.ExitAndNewline`.
- consola/src/parser.c:187-214: the operator of the next line is read as one if and only if the line break
  follows the line at once; a blank before it makes the operator a parameter: `TextEnds.LineBreakKept`, with a
  program in `TextEnds.ExitSwallowed`.
- consola/src/parser.c:191-211: a printed parameter reads back as itself only under a condition,
  `ProgramText.ParameterReadsBack`.

## Model

| member | source | states |
|---|---|---|
| Words.PlusIsSum | cpu/src/cpu.c:248-253 | addition modulo 2^32 |
| Words.LowByteFirst | memoria/src/handle_cpu.c:64-71 | a word lies in memory and on the wire with its low byte first |
| Words.CastModulo | cpu/src/cpu.c:136 | the cast of an int to uint32_t is the number modulo 2^32, and casting back undoes it |
| Clock.ScanFindsVictim | memoria/src/handle_kernel.c:251-282 | with a present page the unbounded search ends, within 4N inspections (CLOCK-M) or 2N (CLOCK), at the victim the closed forms name, having cleared exactly the U bits they name |
| Clock.SearchStep | memoria/src/handle_kernel.c:284-329 | one inspection either settles the victim or carries the search state one entry further |
| Clock.SearchBound | memoria/src/handle_kernel.c:253-281 | no search reaches a fifth round, and inspections stay within the bound at every point |
| Clock.ChoiceEffect | memoria/src/handle_kernel.c:251-329 | the victim is present with U = 0 by then, and no entry changes except in the U bit of a present page |
| Clock.SecondChance | memoria/src/handle_kernel.c:312-327 | under CLOCK a page with U = 1 goes if and only if every present page has U = 1 |
| Clock.ClockIsCircular | memoria/src/handle_kernel.c:251-282 | the nested loops with two wrapping pointers are one hand going round the flattened entries, within two turns |
| Clock.PrefersUnusedClean | memoria/src/handle_kernel.c:286-311 | CLOCK-M takes a (0,0) page that exists if and only if one lies at or after the hand, or there is no (0,1) page and no (1,0) page comes before the first (0,0) |
| Clock.LastResort | memoria/src/handle_kernel.c:286-311 | under CLOCK-M a (1,1) page goes if and only if every present page is (1,1) |
| ClockRuns.UnusedCleanPassedOver | memoria/src/handle_kernel.c:257-281 | with two frames and three pages, a run from the initial memory after which a fault evicts a (0,1) page although a (0,0) page is present |
| Paging.ResolveFaultSound | memoria/src/handle_kernel.c:142-188 | a fault leaves ownership, flags and the contents of every page as they were, the faulting page present in the frame handed out with U = 0 and M = 0 in both branches, and old swap images untouched |
| Paging.ResolveFaultEffect | memoria/src/handle_kernel.c:142-188 | of all other pages only the one that had the frame handed out becomes absent |
| Paging.FreeFrameSound | memoria/src/handle_kernel.c:214-248 | taking a frame, by search or by eviction with or without a write, loses no contents and owes a page to that frame only |
| Eviction.FreeFrameTaken | memoria/src/handle_kernel.c:219-228 | while a frame is free the first such frame is taken, no page moves and nothing is written |
| Eviction.FrameHandedOver | memoria/src/handle_kernel.c:230-245 | else the victim's frame is handed over, the hand stays on the victim, and the victim is written to the end of the swap file if and only if M = 1 |
| Eviction.FaultWrites | memoria/src/handle_kernel.c:142-211 | a whole fault leaves the swap file and every position as they are, unless no frame is free and the victim has M = 1: then exactly the victim's frame is appended and only its position changes, to the old end |
| Eviction.FaultReads | memoria/src/handle_kernel.c:142-201 | the page asked for is in the frame handed out with U = 0 and M = 0, from its image if it has one; no other frame's bytes change |
| Paging.DropSound | memoria/src/handle_kernel.c:235-244 | a page that is clean or just saved can leave its frame without any contents being lost |
| Paging.SwapOutSound | memoria/src/handle_kernel.c:203-211 | saving a page makes its image its latest contents and changes no older image |
| Paging.VictimExists | memoria/src/handle_kernel.c:231-235 | when every frame is used some page is present, so replacement never searches in vain |
| Paging.InstallEmptySound | memoria/src/handle_kernel.c:156-164 | a page never written takes a free frame |
| Paging.InstallImageSound | memoria/src/handle_kernel.c:165-183 | a page with an image takes a free frame with its contents in it |
| Paging.StartProcessSound | memoria/src/handle_kernel.c:56-104 | starting a process appends tables of absent pages, one per segment with room for its size, and keeps everything else |
| Paging.FinishProcessSound | memoria/src/handle_kernel.c:106-140 | finishing a process gives its frames back and keeps the memory sound |
| Paging.FinishProcessAt | memoria/src/handle_kernel.c:111-136 | exactly the pages in the process's tables are reset and forgotten |
| Paging.ReverseIsInverse | memoria/src/memoria.c:163-178 | get_page_reverse on the frame of a present page of the process gives that very page |
| Paging.RamReadSound | memoria/src/handle_cpu.c:56-78 | a read keeps the memory sound and returns the word of the page's latest contents |
| Paging.RamWriteSound | memoria/src/handle_cpu.c:79-102 | a write becomes the latest contents of its page and of no other |
| Paging.PutInFrame | memoria/src/handle_kernel.c:180-181 | bytes copied inside one frame leave every other frame as it was |
| PagingRuns.RunSound | memoria/src/handle_kernel.c:35-54 | after any sequence of starts, finishes, faults and accesses a used frame has exactly one present page, absent pages have U = 0 and M = 1 only with an image, every page's contents are where its entry says, and no saved image has changed |
| PagingRuns.ApplySound | memoria/src/handle_cpu.c:34-53 | the same for one request of the kernel or the CPU |
| PagingRuns.InitialSound | memoria/src/memoria.c:134-152 | the memory starts sound |
| PagingRuns.UsedEqualsPresent | memoria/src/handle_kernel.c:219-228 | as many frames are marked used as pages are present |
| PagingRuns.AccessedPageStays | memoria/src/handle_cpu.c:64-90 | a page just read or written has U = 1, and M = 1 if written, and is not evicted by the next fault if the algorithm has a better victim: any page with U = 0 under CLOCK, a (0,0) page from the hand on or a (0,1) page under CLOCK-M |
| PagingRuns.Isolation | memoria/src/handle_cpu.c:64-71 | words of two resident pages share a physical byte if and only if they are overlapping words of one page of one process |
| PagingRuns.StaysInFrame | memoria/src/handle_cpu.c:88-95 | a four-byte access stays in its frame if and only if its offset is at most page_size - 4 |
| MemoryServer.Memory.constructor | memoria/src/memoria.c:134-152 | every frame free, no tables, an empty swap file, the hand at the start |
| MemoryServer.Memory.IsVictim | memoria/src/handle_kernel.c:284-329 | the per-page test and what it does to the U bit, for both algorithms and every round |
| MemoryServer.Memory.FindVictim | memoria/src/handle_kernel.c:251-282 | the loop without a bound ends, returns the victim of the closed form and leaves the hand on it |
| MemoryServer.Memory.WritePageToSwap | memoria/src/handle_kernel.c:203-211 | the frame's bytes are appended to the swap file and their start recorded in the entry |
| MemoryServer.Memory.FindFreeFrame | memoria/src/handle_kernel.c:214-248 | the first free frame is taken, else the victim is saved if M = 1 and its frame handed over |
| MemoryServer.Memory.EvictVictim | memoria/src/handle_kernel.c:230-245 | the replacement branch of the same; the swap file grows by the victim's frame if its M = 1 and by nothing else |
| MemoryServer.Memory.GetPage | memoria/src/memoria.c:154-159 | the entry of a segment's page |
| MemoryServer.Memory.ReadPageFromSwap | memoria/src/handle_kernel.c:190-201 | at the position of a saved page that is absent, or present and not written since, stand its latest contents |
| MemoryServer.Memory.ResolvePageFault | memoria/src/handle_kernel.c:142-188 | the whole resolution, in place, is the value-level one, and all invariants hold afterwards |
| MemoryServer.Memory.GetPageReverse | memoria/src/memoria.c:163-178 | the nested search finds the first entry of the process present in that frame, or none |
| MemoryServer.Memory.ProcessStarted | memoria/src/handle_kernel.c:56-104 | new tables of fresh absent pages, and the segment table that names them |
| MemoryServer.Memory.ProcessFinished | memoria/src/handle_kernel.c:106-140 | every page of the process is reset and its frame freed |
| MemoryServer.Memory.RamAccessRead | memoria/src/handle_cpu.c:56-78 | the word at the physical address, with U = 1 on the page of that frame |
| MemoryServer.Memory.RamAccessWrite | memoria/src/handle_cpu.c:79-102 | the word is stored, with U = M = 1 on the page of that frame, whose latest contents change in these four bytes only |
| MemoryServer.Memory.FrameAccess | memoria/src/handle_cpu.c:103-126 | the frame of a present page, or a page fault |
| ShippedSwap.ShippedRoundTrip | memoria/src/handle_kernel.c:190-211 | with the position taken after the write, the page read back is the one saved if and only if the bytes appended next, followed by what the buffer held, happen to equal it |
| ShippedSwap.CorrectedRoundTrip | memoria/src/handle_kernel.c:190-211 | with the start recorded the image always comes back, whatever is appended later and whatever the buffer held |
| ShippedSwap.ShippedLosesPage | memoria/src/handle_kernel.c:142-248 | with the code as written, in every memory whose next fault evicts a written page, asking for that page at once gives it back as what malloc gave, with nothing stored in it left |
| ShippedSwap.ShippedStoreLost | memoria/src/handle_kernel.c:142-248 | a run from the initial memory, with one frame and pages of four bytes, after which a stored word is the first four bytes of that buffer |
| ShippedSwap.ShippedUnitOverruns | memoria/src/handle_kernel.c:180-181 | copying page_size ints into a frame leaves the frames behind it intact if and only if the surplus bytes happen to equal them |
| Mmu.SplitJoin | cpu/src/cpu.c:318-324 | the pieces of an address are in range and give the address back |
| Mmu.JoinSplit | cpu/src/cpu.c:318-324 | pieces in range come back from the address they make |
| Mmu.PageInTableIff | memoria/src/handle_kernel.c:70-87 | a page is in the table built for a segment if and only if it starts inside the segment |
| Mmu.CheckedPageInTable | cpu/src/cpu.c:264-271 | an address that passes the size check never indexes past its page table |
| Mmu.SplitWord | cpu/src/cpu.c:318-324 | the bytes of a word inside its page are consecutive offsets of that page |
| TlbQueue.AccessKeeps | cpu/src/cpu.c:275-299 | an access keeps pages unique and the size within ENTRADAS_TLB, and caches the page unless the TLB has no entries |
| Replacement.HitMoves | cpu/src/cpu.c:333-347 | a hit leaves every entry at its index under FIFO; under LRU the entry hit goes to the end and the others keep their order |
| Replacement.MissMoves | cpu/src/cpu.c:365-398 | a miss under either adds at the end while there is room; in a full TLB it overwrites the entry at index 0 and moves every other one up by one |
| Replacement.FifoMovesUp | cpu/src/cpu.c:333-398 | in a full FIFO TLB the entry at index k has moved up by the number of misses, whatever hits came between |
| Replacement.FifoOverwrites | cpu/src/cpu.c:379-398 | and it is overwritten at exactly the (k+1)-th miss |
| TlbQueue.LruInclusion | cpu/src/cpu.c:333-398 | on any trace of lookups and removals in which no lookup hits a stale entry of the larger LRU TLB, the smaller one holds a part of what it holds and misses no less |
| TlbQueue.LruNeverWorseWhenLarger | cpu/src/cpu.c:333-398 | the same from two empty TLBs |
| TlbQueue.StaleHitBreaksInclusion | cpu/src/cpu.c:333-347 | a trace with a stale hit after which the larger TLB lacks what the smaller one holds |
| TlbRuns.TlbAfter | cpu/src/cpu.c:257-315 | a MOV to a present page is one access to the TLB, an EXIT and a fault take entries out, and no other step touches it |
| TlbRuns.LruInclusionInRuns | cpu/src/cpu.c:272-312 | inclusion and the order of the misses hold for the lookups and removals of every run of the machine, and its own TLB, if LRU, is the one of its size |
| TlbUnit.SortUnique | cpu/src/cpu.c:379-398 | with distinct times the order of the entries is unique |
| TlbUnit.Tlb.CheckTlb | cpu/src/cpu.c:333-347 | the frame of the page or -1; a hit moves its entry to the end of the queue under LRU, and nothing else ever moves |
| TlbUnit.Tlb.AddToTlb | cpu/src/cpu.c:365-375 | the new entry is the newest of the queue |
| TlbUnit.Tlb.ReplaceTlbInput | cpu/src/cpu.c:379-398 | the entry overwritten is the head of the queue, and the new one is its newest |
| TlbUnit.Tlb.OldestIsHead | cpu/src/cpu.c:381-390 | the entry with the lowest time is the head of the queue |
| TlbUnit.Tlb.InsertFrame | cpu/src/cpu.c:289-299 | the end of a miss: add while there is room, else replace, nothing with a TLB of size 0 |
| TlbUnit.Tlb.RemoveEntries | cpu/src/cpu.c:172-178 | removing by pid or by frame takes exactly those entries out and keeps the order of the rest |
| Coherence.CoherentAlways | cpu/src/cpu.c:426-444 | in every reachable state each TLB entry and each frame the CPU holds matches a present page or has an invalidation of its frame pending, be it unsent, queued or received and not applied |
| Coherence.StepKeepsInv | cpu/src/cpu.c:257-315 | the same for one step of any thread |
| Coherence.QuietIsCoherent | cpu/src/cpu.c:434-440 | once nothing is pending the TLB is a one-to-one part of the page tables |
| Coherence.DrainsToQuiet | cpu/src/cpu.c:430-443 | with the lock free the consistency thread alone can empty what is pending |
| Coherence.InvalidationsInOrder | cpu/src/cpu.c:426-444 | in every run each invalidation sent is applied once and in the order sent, or is still on its way |
| Coherence.TakenOut | cpu/src/cpu.c:434-440 | an invalidation takes out exactly the entries of its frame, an EXIT exactly those of its process |
| Coherence.ShippedHitIsLast | cpu/src/cpu.c:272-312 | with the unlock in the miss branch only, after a hit no page is looked up and no invalidation applied again |
| Coherence.ShippedStuckIff | cpu/src/cpu.c:272-312 | with that code, in every run, the lock is taken for good if and only if some page looked up so far was found in the TLB |
| Coherence.ShippedGetsStuck | cpu/src/cpu.c:272-312 | a run from the start that gets there: two MOVs on one page |
| Coherence.AccessUndisturbed | cpu/src/cpu.c:285-310 | a translation with nothing pending for its frame when the CPU gets it is right all through the access if and only if memoria does not hand that frame out in between |
| Coherence.AccessDisturbed | memoria/src/handle_kernel.c:230-245 | a run in which it does, and the word moves in a frame that is no longer the page's |
| Coherence.FaultIsClaimInstall | memoria/src/handle_kernel.c:142-188 | resolving a fault moves pages as the coherence system's steps say |
| Coherence.FinishIsFinishPages | memoria/src/handle_kernel.c:106-140 | so does finishing a process |
| Programs.Decodes | cpu/src/cpu.c:113-165 | which parameter of each operation is the register written, the register read, the address or the device |
| Alone.Computes | cpu/src/cpu.c:132-253 | what SET, ADD, I/O and EXIT leave in the register written, the other registers, the counter and the status |
| Alone.Moves | cpu/src/cpu.c:257-315 | a MOV on an offset of a segment kills the process if and only if the offset is not below the segment's size; else it loads its register or stores from it, and the counter advances |
| Alone.Resumes | kernel/src/scheduller.c:257-275 | what is typed on TECLADO is in the register it was asked for, and nothing else changes |
| Alone.LoadAfterStore | cpu/src/cpu.c:402-414 | on the flat memory a load returns the word stored there last and is not touched by stores elsewhere |
| Alone.OnlyInputsMatter | kernel/src/scheduller.c:257-275 | a program that loads only what it stored depends on nothing but the values typed |
| Machine.TranslateRight | cpu/src/cpu.c:275-310 | TLB hit or miss, a present page is translated to its frame and only an absent page faults |
| Machine.StepKeepsInv | cpu/src/cpu.c:100-209 | every step keeps memory sound, tables of processes separate, TLB entries right and waited-for pages absent |
| Machine.ResolveKeeps | memoria/src/handle_kernel.c:142-188 | so does a fault resolution with its invalidation |
| Machine.ReleaseKeeps | memoria/src/handle_kernel.c:106-140 | so does freeing an exited process |
| Machine.OthersFault | kernel/src/scheduller.c:385-402 | two processes never wait for one page, and resolving one fault leaves the others still waiting for an absent page |
| Machine.KilledStays | kernel/src/scheduller.c:403-411 | a process killed by a segmentation fault stays as it is, its tables never freed |
| Transparency.PagingIsTransparent | cpu/src/cpu.c:100-209 | at any point of any run every process has the registers, counter and status of its program run alone on a flat memory over the same inputs, a faulting MOV being no event, and every byte it stored is in its frame or in its image on disk |
| Transparency.StepFollows | cpu/src/cpu.c:257-315 | the same for one step of any process |
| Transparency.LoadMatches | cpu/src/cpu.c:402-407 | a MOV_IN through frames and swap gives the word the flat memory gives |
| Transparency.StoreMatches | cpu/src/cpu.c:410-414 | a MOV_OUT changes the cells it names and no other |
| Transparency.SameOnAnyMachine | cpu/src/cpu.c:100-209 | a program that loads only what it stored has the same registers and counter on any two machines with equal segment spans (entries per table times page size), whatever their frames, algorithms, TLBs and other processes, if given the same inputs |
| Dispatch.Dispatched | cpu/src/cpu.c:113-192 | a dispatch ends, because it exits, is killed, faults, asks for I/O or is cut; in the last two cases the counter has advanced; if it is cut, by exactly the instructions before the quantum was found over, else by no more |
| Dispatch.RaisedMeans | cpu/src/cpu.c:113-192 | which interrupt each status of the process stands for |
| Dispatch.DispatchesBounded | kernel/src/scheduller.c:347-412 | over any run a process is dispatched at most as often as its program has instructions plus its page faults |
| Dispatch.ExecAdvances | cpu/src/cpu.c:132-180 | an instruction ends the dispatch or moves the counter one further, and changes no other process |
| Redispatch.WaitsForNext | cpu/src/cpu.c:305-310 | in every run, a process that waits for a page has the MOV on that page as its next instruction |
| Redispatch.PageStays | memoria/src/handle_kernel.c:142-188 | while a process does not run, its page leaves its frame if and only if memoria hands that frame out |
| Redispatch.FaultsAgainIff | memoria/src/handle_kernel.c:142-188 | in every run, the MOV whose fault was resolved faults on the same page when it next runs if and only if memoria handed the page's frame out in between; else it is done, and the counter advances |
| Thrashing.NeitherGetsOn | memoria/src/handle_kernel.c:142-188 | a run of any length, under both algorithms and with any TLB, in which two processes with one frame run and fault in turn and neither executes its first instruction |
| Cpu.Cpu.MovExecute | cpu/src/cpu.c:257-315 | over the memory and TLB objects a MOV is exactly the machine's: segmentation fault, hit, miss or page fault |
| Cpu.Cpu.TlbAccess | cpu/src/cpu.c:351-361 | the word moves between the register and the page memoria finds by the frame |
| Cpu.Cpu.RequestDataIn | cpu/src/cpu.c:402-407 | the register gets the word, the counter advances |
| Cpu.Cpu.RequestDataOut | cpu/src/cpu.c:410-414 | the word is stored and becomes the page's latest contents, the counter advances |
| Cpu.Cpu.ComputeExecute | cpu/src/cpu.c:132-180 | after SET the register holds the value, after ADD the sum modulo 2^32 of the two old registers, all others as before; I/O notes the device; EXIT takes the process's TLB entries out; the counter advances except at EXIT |
| Cpu.Cpu.Execute | cpu/src/cpu.c:115-180 | fetching, decoding and executing one instruction is one step of the machine |
| Cpu.Cpu.Cycle | cpu/src/cpu.c:113-192 | the check after it: exit over I/O, fault and segmentation fault over quantum |
| Cpu.Cpu.InstructionCycle | cpu/src/cpu.c:106-192 | the inner loop ends and leaves memory, TLB and PCB as the dispatch of the machine, with the page or the device the process waits for noted |
| Reply.RunAndReply | cpu/src/cpu.c:194-204 | what the CPU sends after a dispatch is one well-formed message: the PCB as the machine left it, with the device and argument or the page the process waits for exactly when its interrupt type calls for them |
| Reply.RunAndReceive | kernel/src/scheduller.c:352-394 | the kernel decodes from it the process id, the reason, the counter, the registers, the program and the segment table of the machine, and that device or page |
| Reply.OutcomeFits | cpu/src/cpu.c:194-204 | however a dispatch of a process within the wire's ints ends, its counter, device and page fit them too |
| Queues.DispatchTakes | kernel/src/scheduller.c:299-338 | the head of READY 1 runs; when READY 1 is empty, under FEEDBACK, the head of READY 2; the head of NEW only when those are empty; the queues not taken from stay |
| Queues.QuantumGiven | kernel/src/scheduller.c:304-345 | no dispatch has a quantum under FIFO, every one under RR, those from READY 1 under FEEDBACK |
| Queues.Created | kernel/src/scheduller.c:142-155 | a new process joins the end of READY 1 while that is shorter than the limit, else of NEW |
| Queues.Preempted | kernel/src/scheduller.c:157-175 | a preempted process joins the end of READY 2 under FEEDBACK, else of READY 1 |
| Queues.Unblocked | kernel/src/scheduller.c:177-191 | after its I/O or its page fault a process joins the end of READY 1 |
| Queues.Blocked | kernel/src/scheduller.c:193-224 | TECLADO and PANTALLA block the process on its console, any other device puts it at the end of the queue of the device of that name |
| Queues.Served | kernel/src/scheduller.c:277-294 | a device serves the head of its queue |
| Queues.AllFifo | kernel/src/scheduller.c:142-345 | NEW, both READY queues and every device queue are first in, first out |
| Queues.Ready2Waits | kernel/src/scheduller.c:328-332 | a process in READY 2 moves up exactly at the dispatches under FEEDBACK that find READY 1 empty |
| Scheduling.ProcessesConserved | kernel/src/scheduller.c:142-224 | in every run each process created is in exactly one place, semaphores never exceed what their queues hold, READY 2 is empty outside FEEDBACK, and whoever was let through a semaphore finds a process |
| Scheduling.StepKeepsInv | kernel/src/scheduller.c:277-412 | the same for one step of any thread, pushes and posts apart |
| Scheduling.NoDeadlock | kernel/src/scheduller.c:277-345 | while some process has not ended, some step other than the arrival of a new process can be taken: no wakeup is lost |
| Scheduling.BoundedWaiting | kernel/src/scheduller.c:299-338 | a process at index k of READY 1 moves one place up at each dispatch and is the one chosen at exactly the (k+1)-th, under every policy and whatever else happens |
| Scheduling.Ready1Fifo | kernel/src/scheduller.c:157-191 | no step overtakes in READY 1 |
| Places.PlaceStep | kernel/src/scheduller.c:142-224 | which process each step of the scheduler moves, and to which place; all others stay |
| KernelRuns.MoveKeepsInv | kernel/src/scheduller.c:347-413 | scheduler and machine together: every step keeps each process in the place its registers, fault and status call for |
| KernelRuns.WhoRunsCan | kernel/src/scheduller.c:299-345 | in every run, whom the scheduler has on the CPU can run: it is not blocked, faulted or ended, and its counter is at an instruction |
| KernelRuns.ReasonTells | kernel/src/scheduller.c:347-413 | the reason a process comes back with is the true one: ended, killed, faulted, waiting for that device, or cut by its quantum |
| KernelRuns.QuantumNeedsStart | kernel/src/scheduller.c:304-345 | in every run a process comes back because its quantum is over only after a dispatch that started one: never under FIFO, under FEEDBACK only after a process was taken from READY 1 |
| KernelRuns.KernelRun | kernel/src/scheduller.c:347-413 | the scheduler's steps of such a run are a run of the scheduler |
| KernelRuns.MachineRun | cpu/src/cpu.c:100-209 | the dispatches, resolutions and I/O of such a run are a run of the machine, with as many dispatches and page faults of each process as the scheduler saw come back |
| KernelRuns.SentBounded | kernel/src/scheduller.c:299-345 | the scheduler sends a process to the CPU at most once per instruction of its program and once per page fault it comes back with, the present time apart |
| KernelRuns.NeverStuck | kernel/src/scheduller.c:142-413 | in every run, while a process has not ended, scheduler and machine can take some step together other than a new arrival or a release |
| Scheduler.Kernel.constructor | kernel/src/scheduller.c:57-90 | empty queues and one idle device per configured name |
| Scheduler.Kernel.LogReady | kernel/src/scheduller.c:92-133 | the pop-and-push rotations report the queues in order and leave them unchanged |
| Scheduler.Kernel.NewState | kernel/src/scheduller.c:142-155 | a new process joins READY 1 while that is shorter than the limit, else NEW |
| Scheduler.Kernel.ReadyStateFromQuantum | kernel/src/scheduller.c:157-175 | the process goes to the end of READY 1, or of READY 2 under FEEDBACK |
| Scheduler.Kernel.ReadyStateFromConsole | kernel/src/scheduller.c:177-183 | it goes to the end of READY 1 and leaves the console |
| Scheduler.Kernel.ReadyStateFromPageFault | kernel/src/scheduller.c:185-191 | it goes to the end of READY 1 and no longer waits for its page |
| Scheduler.Kernel.BlockState | kernel/src/scheduller.c:193-224 | a console device gets a thread of its own, any other device a place in its queue and a post |
| Scheduler.Kernel.HandleIo | kernel/src/scheduller.c:277-294 | a raised device semaphore means a process in the device's queue; the first goes to READY 1 |
| Scheduler.Kernel.ExecuteAlgorithm | kernel/src/scheduller.c:299-345 | the head of READY 1, else of READY 2 under FEEDBACK, else of NEW, said on the queues before and after, with a quantum as the policy says |
| Scheduler.Kernel.Receive | kernel/src/scheduller.c:347-413 | where each reason for giving a process back sends it |
| WireLayout.PcbFields | shared/src/shared/serialization.c:127-146 | the fields of a PCB in their order, four bytes each with the low byte first, before the segment table and the instructions |
| WireLayout.SegmentFields | shared/src/shared/serialization.c:116-126 | a counted segment is its size, then its table's index |
| WireLayout.InstructionFields | shared/src/shared/serialization.c:76-96 | an instruction list is opcode, count, and per instruction the operation's number, the count of parameters and the parameters in order |
| WireLayout.ParameterFields | shared/src/shared/serialization.c:66-112 | a parameter is a byte that tells strings from numbers and then the string, with opcode, length and NUL, or the number |
| WireLayout.TailFields | shared/src/shared/serialization.c:243-295 | what stands behind the PCB in each of the three messages |
| WireLayout.OperationCodes | shared/src/shared/structures.h:7-14 | the numbers of the operations |
| WireLayout.InterruptCodes | shared/src/shared/structures.h:40-47 | the numbers of the interrupts |
| Wire.PcbRoundTrip | shared/src/shared/serialization.c:136-146 | an encoded PCB followed by any bytes decodes to itself and leaves exactly those bytes |
| Wire.StringRoundTrip | shared/src/shared/serialization.c:66-75 | so does a string with its opcode, length and NUL |
| Wire.InstructionsRoundTrip | shared/src/shared/serialization.c:76-115 | so does an instruction list with string and integer parameters |
| Wire.SegmentTableRoundTrip | shared/src/shared/serialization.c:116-126 | so does a segment table |
| Wire.MessageRoundTrip | shared/src/shared/serialization.c:243-295 | so does a plain, I/O or page-fault message, its tail chosen by the interrupt type |
| Wire.MessagesRoundTrip | kernel/src/scheduller.c:347-394 | so does any sequence of such messages |
| Wire.MessagesPrefixFree | shared/src/shared/serialization.c:296-313 | no message is the beginning of another |
| Wire.TailByInterrupt | cpu/src/cpu.c:194-204 | a message comes back if and only if its tail is the one its interrupt type calls for |
| Streams.Buffer.AddToBuffer | shared/src/shared/serialization.c:56-61 | the bytes are appended and the size grows by their number |
| Streams.Buffer.AddString | shared/src/shared/serialization.c:66-75 | appends the encoded string |
| Streams.Buffer.AddInstructions | shared/src/shared/serialization.c:76-115 | the nested loops append the encoded list |
| Streams.Buffer.AddSegmentTable | shared/src/shared/serialization.c:116-126 | the loop appends the encoded table |
| Streams.Buffer.AddPcb | shared/src/shared/serialization.c:136-146 | appends the encoded PCB |
| Streams.Connection.SendByInterrupt | shared/src/shared/serialization.c:243-295 | one encoded message goes behind what was sent before, with the tail its interrupt type calls for |
| Streams.Connection.RecvString | shared/src/shared/serialization.c:167-178 | takes exactly one encoded string, or reports that there is none |
| Streams.Connection.RecvInstructions | shared/src/shared/serialization.c:188-238 | the nested loops take exactly one encoded list, or report that there is none |
| Streams.Connection.RecvSegmentTable | shared/src/shared/serialization.c:478-490 | the loop takes exactly one encoded table, or reports that there is none |
| Streams.Connection.RecvPcb | shared/src/shared/serialization.c:296-313 | takes exactly one encoded PCB, or reports that there is none |
| Streams.Connection.RecvDispatch | kernel/src/scheduller.c:352-394 | takes exactly one message with its tail, or reports that there is none |
| ProgramText.RegisterNames | consola/src/parser.c:26-56 | AX, BX, CX and DX are registers 0, 1, 2 and 3, and no other word is one |
| ProgramText.OperationNames | consola/src/parser.c:15-46 | the six names of the operations, and no other word is one |
| ProgramText.DigitsRead | consola/src/parser.c:199-205 | a word of digits is the number it shows, wrapped into an int |
| ProgramText.PrintThenParse | consola/src/parser.c:157-225 | for any instruction list whose numbers are not negative and whose names are clean, at most 11 characters, not all digits and no register, parsing the printed text gives the list back |
| ProgramText.ParameterReadsBack | consola/src/parser.c:191-211 | a printed parameter reads back as itself if and only if it is a number that is not negative or a name that is neither a register nor all digits |
| ProgramText.NextWordReads | consola/src/parser.c:78-115 | behind any blanks a word is read whole if and only if it has at most 11 characters |
| TextEnds.ParseContinues | consola/src/parser.c:157-225 | a text followed by more is rejected if the text is; otherwise the parser goes on in the middle of the text's last instruction |
| TextEnds.BlanksAtEnd | consola/src/parser.c:166-218 | an accepted text and blanks behind it are read as the text if and only if there are no blanks, and rejected if and only if the first one is a newline; else the last instruction has a junk parameter more |
| TextEnds.FinalNewline | consola/src/parser.c:166-178 | no file that ends in a newline is read as the text before its last blanks |
| TextEnds.BlanksAlone | consola/src/parser.c:157-178 | a file of blanks alone is the empty program if and only if it is empty |
| TextEnds.ExitAndNewline | consola/src/parser.c:166-178 | a rejected file, and an accepted one with a junk parameter |
| TextEnds.LineBreakKept | consola/src/parser.c:187-214 | behind an accepted text the operator of the next line starts an instruction if and only if the first blank between them is a newline; else it becomes a parameter of the last instruction |
| TextEnds.ExitSwallowed | consola/src/parser.c:187-214 | a program that loses its EXIT to a blank |
| ProgramText.ValueOfShow | shared/src/shared/log_extras.c:116-119 | a printed number is all digits and has the value printed |
| Parser.StrToInst | consola/src/parser.c:39-46 | the loop finds the operation of that name, the names written out, or none |
| Parser.StrToReg | consola/src/parser.c:49-56 | AX, BX, CX and DX give 0, 1, 2 and 3, any other word none |
| Parser.AllDigits | consola/src/parser.c:65-72 | whether every character is a digit |
| Parser.Stream.ReadWord | consola/src/parser.c:78-115 | the two loops read the word and leave the stream as the specification says, or stop at a word too long |
| Parser.Stream.Parse | consola/src/parser.c:157-225 | the nested loops return the specified instruction list, or fail where it does |
| LogExtras.LogInstructions | shared/src/shared/log_extras.c:101-124 | the nested loops build the specified text |
| Submission.ParsedProgramArrives | shared/src/shared/serialization.c:180-238 | any file the parser accepts arrives at the other end of the connection as the program it was parsed to |
| Samples.TextRead | consola/src/parser.c:157-225 | a program with every operation, a tab and two blanks in it, and the instructions it is read as |
| Samples.Printed | shared/src/shared/log_extras.c:101-124 | how an instruction list is printed |
| Samples.ProgramRan | cpu/src/cpu.c:113-180 | the registers, memory, counter and status that program ends with |

## Left out

- Sockets, connection set-up, configuration files, logging, delays and exiting on error: plumbing. A connection is a reliable stream of bytes; a decoder gives `None` where the source would block, exit or read astray.
- Real interleaving inside one function: threads are atomic steps over shared state. A push and its `sem_post`, and a `sem_wait` and its pop, are separate steps in `Scheduling`; the methods of `Scheduler` run them back to back.
- `pthread_cancel`: in `KernelRuns` a quantum may be found over after any instruction once the kernel has started one, in time or late; in `Machine` and `Dispatch` after any instruction.
- A bound on the number of active processes: the limit is compared with the length of READY 1 only.
- The frames-per-process setting, which is read and never used.
- Frames of a process killed by a segmentation fault: memory is not told, and the model says nothing of their release.
- The contents of memory cells never written: a fresh frame is not cleared.
- Fairness of NEW and READY 2: the code permits starvation there.
- Heap sizes and leaks in C: the TLB entry allocated with the size of a pointer, and the word buffer of 10 bytes in which words of 10 and 11 characters overflow although the length check lets them pass. NUL bytes in a program file.
- Float rounding in `ceil` and `floor` and overflow of the TLB timestamp: exact division and unbounded counters. Sizes, offsets and page numbers are unbounded; 32-bit wrap-around is modelled for registers and ADD, in the encoding of integers and in the numbers of a program text.
- Negative addresses and segment numbers: a logical address of 2^31 or more is negative in `mmu` and indexes a list before its start.
- Instructions with missing or wrong parameters, an unknown device and a segment that does not exist: the source reads through bad pointers there, and the models take no step.
- TLB entries, PCBs in the scheduler's queues and device queues are values in mutable sequences, not objects of their own: aliasing between a queue and a thread holding its PCB is not captured.
- Loops that the source writes inside one function are split into one method per loop (`SearchTable`, `SearchRound`, `FreeTable` and the like), so that each carries its own invariant.
- Cpu.Cpu.InstructionCycle: one round of the outer loop; the number of instructions until the quantum variable is seen set is a parameter.
- Coherence.CoherentAlways: the registers and the words moved are not part of this step system; they are in `Transparency`, under the assumption that a MOV is not split.
- ProgramText.PrintThenParse: registers read back as the numbers they print as, as the source does.
- Drawing functions of log_extras.c and the console's interaction beyond TECLADO and PANTALLA.
- TlbQueue.LruInclusion: traces in which a lookup hits a stale entry, where inclusion fails (`TlbQueue.StaleHitBreaksInclusion`); no run of the machine has one.
- TlbQueue.LruNeverWorseWhenLarger: the same traces.
- KernelRuns.NeverStuck: programs whose I/O names no configured device, or TECLADO with no register, are not admitted; the source reads through bad pointers there.
- Thrashing.NeitherGetsOn: how likely the interleaving is; the delays that decide it are not modelled.
