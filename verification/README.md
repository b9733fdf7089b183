# MOS, modelled in Dafny

MOS is a small MIPS kernel with user-level fork, pipes, a file server and a shell. This project models its
hardest parts and proves what they are for. Code that updates state in place is modelled by classes and
loops, proved against values; protocols in which several programs interleave are state machines, and the
main results hold in every run. `dafny verify dfyconfig.toml` checks everything.

- **Virtual memory** (`Mmu`, `Vm`, `Words`, `PageTables`, `Window`, `Teardown`,
  `Frames`, `Kernel`, `KernelCases`). `Vm` keeps one finite map of references
  (leaves, page tables, directories, boot pages) with counts, free pages and the TLB. `PageTables` says how
  words in physical memory stand for that map. The class `Kernel.Machine` holds the kernel's own data, and
  each of its methods keeps `ValidAll`: memory refines the map, counts are exact, the TLB is coherent,
  `envs`, the free list and the ASID bitmap agree. A TLB entry is keyed by ASID and virtual page; a refill
  may evict any others. The system calls also say in numbers and bits what a caller gets (`AsAsked`, `AllocPlain`,
  `MapPlain`, `UnmapPlain`), and for whom (`MayActOn`).
- **Names** (`EnvNames`). Environment ids and what they resolve to.
- **Copy-on-write fork** (`Fork`). Any number of forks, fault handlers and stores interleave; a page is
  protected in two steps, and a handler copies byte by byte. The reference is a machine in which each
  environment has a memory of its own.
- **Pipes** (`PipeEnds`, `PipeData`, `PipeCases`). Processes are switched between any two system calls. `PipeEnds` is
  the protocol of reference counts; `PipeData` adds the buffer and the loops of read and write. Any number of
  processes hold the ends; during a transfer no other process holds the same end. `PipeCases` is the same code
  without that guard, with any number of processes inside calls, and says exactly when a call is right.
- **Queues, scheduler, messages** (`Queue`, `Sched`, `SchedList`, `System`). `Queue` is the pointer code of
  queue.h; `Sched` the kernel calls on values; `SchedList` the same calls on the heap queue; `System` joins
  them with the memory calls, so that who is scheduled has an address space and a message takes its page along.
- **File blocks and image builder** (`Bitmap`, `Blocks`, `FileServer`, `ImageBuilder`). A ghost map names the one
  owner of each block. The builder is proved to produce an image that meets the server's invariant, and
  from which the server reads back every block.
- **ELF segments, history, numbers** (`ElfLoader`, `History`, `PrintNum`).

## What turned out false

Where the code does not do what its comments or its use suggest, the model follows the code; there is a
concrete failing case and, where one exists, the exact condition.

- An ELF segment whose file part ends inside an unaligned first page, with zeros to follow, loses its bytes:
  that page is mapped a second time (`ElfLoader.ShortSegmentLost`, `MappedOnceIff`, `ImageIff`).
- A freed block that is still cached can become an indirect block with old words in it
  (`FileServer.StaleIndirectBlock`, `Blocks.GiveIndIff`, `FileServer.Server.FileMapBlock`).
- `sys_set_env_status` on a waiting receiver makes the run queue hold it twice later
  (`Sched.WakingAReceiverDuplicates`, `SetStatusKeepsInvIff`).
- Between the tests of `pipe_read` and the taking of a byte another process at the read end can empty the pipe
  (`PipeCases.LastByteTakenTwice`), and the two end checks can be told different things
  (`SecondReaderBreaksReads`); then a byte is taken from an empty pipe. `pipe_write` can overwrite an unread byte in the
  same ways. `ReadIff` and `WriteIff` are exact, and `UnsoundBreaks` has the bad run for every other state.
- If fork's sharing of a descriptor is seen half way, the end check answers wrongly
  (`PipeEnds.HalfSharedSlotLies`, `BackedIffInOrder`).
- Destroying a blocked environment removes it from a queue it is not in
  (`Queue.DestroyedWhileBlocked`, `Queue.TailQueue.RemoveStale`, `System.Os.SysEnvDestroy`), and one that was never
  queued, as in the error path of spawn, makes the kernel write through null (`SchedList.DestroyedBeforeQueued`).
- The slot of a destroyed receiver stays marked as receiving for its next occupant
  (`Sched.DestroyedReceiverDuplicates`, `FreeKeepsInvIff`).
- The UVPT window is not read-only: directory words carry PTE_D, so a user can rewrite its own page tables, and
  those of UENVS and UPAGES that all share (`KernelCases.WindowStoreBreaks`, `Window.StoreKeepsIff`,
  `StoresHarmlessIff`), and so reach the pages of others (`WindowStoreSteals`).
- A look into the window at the table of a kernel address allocates a page that is never given back
  (`KernelCases.StrayTableLeaks`, `Kernel.Machine.TlbRefill`).
- The perm argument is not masked: bits above the low twelve change the page that is mapped but not the page that
  is counted, and the asserts of `page_free` and `page_decref` can then fire (`KernelCases.HighPermBreaks`,
  `Words.InsertRawIff`). A caller is safe with perm below 0x1000.
- The 16-bit count wraps at 65536 mappings (`Words.CountWraps`, `LinkRawIff`).
- A user page with PTE_G can be hit by other environments (`Vm.GlobalPageLeaks`, `GlobalHitsFreshIff`,
  `AnswersOwnIff`).
- A block mapped past the end of a file survives truncation (`FileServer.BlockPastEndStays`, `TruncateIff`).
- `history_get_all` lists an unfinished line as if it were a command (`History.UnfinishedLineListed`,
  `AllIsCommandsIff`).
- `env_alloc` leaks the directory page when no ASID is free, and `sys_mem_alloc` the fresh page when no page
  table can be had; both are part of the contracts.
- A priority of 0 lets an environment keep the CPU (`Sched.ZeroPriorityKeepsTheCpu`, `ReachedByTicksIff`).
- Environment ids repeat after 2^21 allocations, and a stale one then resolves to somebody else
  (`EnvNames.StaleIdResolves`, `EnvIdsEqualIff`).

## Model

| member | source | states |
|---|---|---|
| `Vm.StepKeepsInv` | `kern/pmap.c:127-317` | every kernel step on memory keeps: counts equal references, count 0 means free or held, tables nest properly, table pages are exclusive, ASIDs are distinct, the TLB agrees with the tables |
| `Vm.EveryRunKeepsInv` | `kern/env.c:240-420` | the same in every state that any interleaving of allocation, mapping, unmapping, refill, env_alloc and env_free reaches |
| `Vm.HitsAreFresh` | `kern/tlbex.c:34-49` | after any run a TLB hit of a live environment is what a walk of its own tables gives now, the UVPT window included |
| `Vm.PagesConserved` | `kern/pmap.c:127-156` | after any run every page is in exactly one of free, held (taken but not mapped) and referenced, and the three numbers add up to all pages |
| `Vm.AdoptKeepsInv` | `kern/env.c:240-284` | a new address space under a reused ASID finds no private TLB entry of that ASID |
| `Vm.RetireKeepsInv` | `kern/env.c:410-415` | after env_free no private TLB entry of the released ASID is left and the invariant holds |
| `Vm.RemoveIsMapDelete` | `kern/pmap.c:289-306` | page_remove deletes one key of one address space, seen as a finite map, and changes no other key of any environment |
| `Vm.InsertIsMapUpdate` | `kern/pmap.c:215-244` | page_insert is map update at one key of one address space, whatever was mapped there before |
| `Vm.InsertKeepsInv` | `kern/pmap.c:215-244` | page_insert keeps counts, structure and TLB coherence in all its branches: same page, other page, unmapped, missing table |
| `Vm.InsertFrees` | `kern/pmap.c:221-243` | page_insert takes at most the page for a missing table, and frees the replaced page exactly when that was its last reference |
| `Vm.InsertChanges` | `kern/pmap.c:215-244` | page_insert touches no reference but the leaf and its page table |
| `Vm.LinkKeepsInv` | `kern/pmap.c:190-200` | a new reference with its count raised keeps the invariant |
| `Vm.UnlinkKeepsInv` | `kern/pmap.c:278-306` | dropping a reference, decrementing and flushing its TLB entry keeps the invariant, and the count was positive |
| `Vm.RepermKeepsInv` | `kern/pmap.c:221-229` | changing only the permission of a mapped page, with the flush, keeps the invariant |
| `Vm.FillKeepsInv` | `kern/tlb_asm.S:34-49` | a refill that may evict any entries keeps the TLB coherent |
| `Vm.TakeKeepsInv` | `kern/pmap.c:127-143` | a page taken from the free list becomes a held page |
| `Vm.GlobalHitsFreshIff` | `kern/syscall_all.c:136-154` | a user may set PTE_G, and such an entry matches under every ASID: all hits are fresh after every refill if and only if the environments agree on their global pages, as they do when there are none |
| `Vm.AnswersOwnIff` | `kern/tlb_asm.S:34-49` | whatever the TLB answers an environment at a page is its own translation if and only if no global entry of another one with a different translation is cached there |
| `Vm.OwnerAnswers` | `kern/tlb_asm.S:34-49` | every answer is the current translation of the owner of the entry, and a foreign owner shows up only through a global page below UTOP |
| `Vm.GlobalPageLeaks` | `kern/syscall_all.c:136-154` | a concrete state with one global page: after one refill another environment hits it |
| `Words.LinkRawIff` | `kern/pmap.c:239-242` | raising the count of pp and storing a word keeps all counts if and only if the word names pp and the 16-bit count does not wrap |
| `Mmu.OrBits` | `kern/pmap.c:241` | the bitwise or of the stored word, digit by digit |
| `Mmu.WordAsAsked` | `kern/pmap.c:241` | the stored word has the low bits of perm and PTE_V and no other low bit, and every page number digit that the page or the high part has; with perm below 0x1000 it is the page itself |
| `Words.InsertRawIff` | `kern/pmap.c:215-244` | page_insert with the word it really stores keeps the invariant if and only if the word names the page and its count, if raised, does not wrap; then it is the abstract insert |
| `Words.HighBitMiscounts` | `kern/pmap.c:239-242` | perm 0x1000 on an even page maps the page after it, whose count stays 0 |
| `Words.CountWraps` | `kern/pmap.c:239-242` | a run of 65535 mappings of one page keeps the invariant, and one more makes its count 0 |
| `PageTables.WalkIsTranslate` | `include/pmap.h:47-59` | the two-level walk of the words in physical memory gives the abstract translation, below UTOP, in the template slots and in the UVPT window |
| `PageTables.WindowReadsLeaf` | `user/lib/pageref.c:3-17` | reading vpt through the self-map yields the leaf word of the environment itself |
| `Window.WindowIsWritable` | `kern/pmap.c:187-192` | the window page of every page table is writable |
| `Window.TemplateIsWritable` | `kern/env.c:177-189` | so are the window pages of the tables of UENVS and UPAGES |
| `Window.WritableIsWhere` | `kern/env.c:215-217` | nothing else from UTOP on is: the directory and the pages of UENVS and UPAGES are read-only |
| `Window.StoreKeepsIff` | `kern/tlbex.c:34-49` | a store through a writable page leaves the page tables what they are if and only if it goes to a user page or does not change the meaning of the word |
| `Window.StoresHarmlessIff` | `kern/tlbex.c:34-49` | every store through a writable page is harmless if and only if the page lies below UTOP |
| `KernelCases.WindowStoreBreaks` | `kern/tlbex.c:34-49` | a run: a refill in the window, then a store of a wrong value into any word of any table, and the kernel's invariant is gone |
| `KernelCases.WindowStoreSteals` | `kern/tlbex.c:34-49` | a run: the number of a page of another environment is stored into the own table, the page is touched and written, and the other environment finds the value in its page |
| `Window.PageStolen` | `kern/pmap.c:187-192` | the same on memory words: the walk gives the stolen page, writable, and the victim still maps it |
| `KernelCases.HighPermBreaks` | `kern/syscall_all.c:136-154` | a run: sys_mem_alloc with perm 0x1000 maps a free page, whose count is 0 |
| `PageTables.DataWrite` | `kern/pmap.c:127-143` | writing a page that is no table leaves every address space as it was |
| `PageTables.LeafWrite` | `kern/pmap.c:239-242` | writing one table word changes exactly one leaf of one environment |
| `PageTables.DirWrite` | `kern/pmap.c:188-200` | writing one directory word below UTOP adds or drops exactly one page table |
| `PageTables.AdoptRefines` | `kern/env.c:194-219` | the directory built by env_setup_vm stands for an empty address space with template and self-map |
| `PageTables.RetireRefines` | `kern/env.c:410-415` | giving a directory back leaves all other address spaces as they were |
| `Teardown.ProgressLeaf` | `kern/env.c:397-403` | one round of the inner loop of env_free drops exactly that leaf |
| `Teardown.ProgressTable` | `kern/env.c:404-408` | the end of an outer round drops exactly that page table |
| `Teardown.ProgressEnd` | `kern/env.c:389-409` | when both loops are done exactly the references of this environment are gone |
| `Teardown.ReleasedCounts` | `kern/env.c:381-420` | env_free lowers each count by exactly the references the environment held |
| `Teardown.ReleasedElsewhere` | `kern/env.c:381-420` | env_free changes no translation of another environment |
| `Teardown.AdoptedIsEmpty` | `kern/env.c:194-219` | a new environment has nothing mapped below UTOP |
| `Kernel.Machine.constructor` | `kern/env.c:156-189` | the boot state satisfies the whole invariant and env_free_list is in slot order |
| `Kernel.BootInv` | `kern/pmap.c:90-111` | a state with only boot references satisfies the invariant |
| `Kernel.Machine.PageAlloc` | `kern/pmap.c:127-143` | the first free page, zeroed and held; none exactly when the list is empty |
| `Kernel.Machine.PageFree` | `kern/pmap.c:151-156` | puts a page of count 0 on the list; its assert is the precondition every caller meets |
| `Kernel.Machine.PageDecref` | `kern/pmap.c:278-285` | lowers a positive count and frees the page exactly at 0; its assert is the precondition every caller meets |
| `Kernel.Machine.TlbInvalidate` | `kern/pmap.c:315-317` | drops that key of the TLB and no other |
| `Kernel.Machine.PageLookup` | `kern/pmap.c:251-271` | map lookup, for any virtual page, the UVPT window included |
| `Kernel.Machine.PgdirWalk` | `kern/pmap.c:175-201` | finds the table; without it, makes a zeroed one, or says none, or out of memory, changing nothing then; every data page but the one taken keeps its words |
| `Kernel.Machine.PageRemove` | `kern/pmap.c:289-306` | the in-place code keeps memory, counts, free list and TLB in step, removes exactly one leaf, and leaves the words of every data page alone |
| `Kernel.Machine.PageInsert` | `kern/pmap.c:215-244` | for any perm: fails exactly when a table is missing and no page is free, and then memory, counts, free list and TLB are untouched; otherwise the exact new state, in which the invariant holds if and only if the word stored names the page and the count does not wrap; data pages keep their words |
| `Kernel.InsertAsAsked` | `kern/pmap.c:215-244` | in every branch of page_insert the virtual page afterwards is the page asked for with exactly the bits asked for |
| `Kernel.SamePageIff` | `include/mmu.h:10-16` | two addresses have the same directory and table index exactly if they lie in the same page |
| `Kernel.ZonesRefused` | `kern/tlbex.c:4-29` | the forbidden zones of passive_alloc, in numbers |
| `Kernel.Machine.AsidAlloc` | `kern/env.c:32-43` | the lowest clear bit is set; fails exactly when all are set |
| `Kernel.Machine.EnvSetupVm` | `kern/env.c:194-219` | a page becomes a finished directory that no environment uses yet; all other data pages keep their words |
| `Kernel.Machine.EnvAlloc` | `kern/env.c:240-284` | names, ASID, directory and lists of the new environment; the ASID was nobody's; which error comes when, and what is left behind, the directory page leaked when no ASID is free included; all other data pages keep their words |
| `Kernel.Machine.EnvFree` | `kern/env.c:381-420` | gives back exactly what the environment held, and frees slot and ASID, with the nested loops over the real tables; the words of every data page stay |
| `Kernel.Machine.EnvRun` | `kern/env.c:473-503` | after a switch every TLB hit under the own ASID is the own current translation; hits on global entries stay right under refills if and only if the environments agree on global pages |
| `Kernel.Machine.TlbRefill` | `kern/tlbex.c:34-49` | for any address: a mapped page is cached and memory is unchanged; an unmapped one first gets a page of its own that reads as zeros, or the kernel panics, exactly when; all other data pages keep their words; the invariant survives unless the page is the window page of a table for kernel addresses |
| `Kernel.Machine.PassiveAlloc` | `kern/tlbex.c:4-29` | succeeds exactly outside the forbidden zones with enough free pages, and then maps a writable page that reads as zeros; in the UVPT window that page becomes an empty page table of the environment; other data pages keep their words |
| `Kernel.Machine.WindowAlloc` | `kern/tlbex.c:27-28` | in the window page_insert writes a directory word: below UTOP that is exactly what pgdir_walk does for a missing table, counts included; from word 512 on the page is counted but belongs to no reference |
| `KernelCases.StrayTableLeaks` | `kern/env.c:389-409` | a run: one look at the page table of a kernel address takes a page that env_free never gives back |
| `Kernel.Machine.UserStore` | `kern/tlbex.c:34-49` | a store anywhere below ULIM lands in the page of whichever entry the TLB answers with, own or global, if that is writable; the invariant survives if and only if the store leaves the page tables what they are |
| `Kernel.Machine.SysMemAlloc` | `kern/syscall_all.c:136-154` | all outcomes in order of the checks, for any perm; the invariant survives if and only if perm does not change the page number; the new page reads as zeros, other data pages keep their words; if no page table can be had the fresh page stays held; refused with no change outside UTEMP..UTOP and for any id but the own or a child's, and otherwise the page at va has exactly the bits asked for |
| `Kernel.Machine.SysMemMap` | `kern/syscall_all.c:170-197` | maps the source page at the target or fails without change; for any perm, the invariant survives if and only if the word names the source page and its count does not wrap; data pages keep their words; refused with no change for illegal addresses and strangers, and otherwise the target has the page of the source with exactly the bits asked for |
| `Kernel.Machine.SysMemUnmap` | `kern/syscall_all.c:209-223` | removes exactly that page, also when it was not mapped; data pages keep their words; refused with no change for illegal addresses and strangers |
| `Kernel.Machine.SysExofork` | `kern/syscall_all.c:239-260` | the child has a new id, the caller as parent and an ASID without TLB entries; which error comes when |
| `Kernel.Machine.SysEnvDestroy` | `kern/syscall_all.c:77-84` | releases exactly the environment that the id resolves to, which is the caller or one that has the caller as parent, or changes nothing |
| `EnvNames.EnvIdsDistinct` | `kern/env.c:94-97` | below 2^21 allocations ids are non-zero, distinct, and name their slot |
| `EnvNames.EnvIdsEqualIff` | `kern/env.c:94-97` | for any two allocations: the ids are equal if and only if the slots are and the call numbers are a multiple of 2^21 apart |
| `EnvNames.ResolvesIff` | `kern/env.c:112-147` | what an id that was handed out resolves to, after any number of allocations |
| `EnvNames.ResolveIff` | `kern/env.c:112-147` | with the permission check an id resolves to e exactly if e is the caller, or is live, has that id and is the caller or its child |
| `EnvNames.PermissionIff` | `kern/env.c:139-143` | the check refuses exactly the ids of environments that are neither the caller nor its children |
| `EnvNames.StaleIdResolves` | `kern/env.c:112-147` | a concrete state in which the first id resolves to a later occupant of its slot |
| `EnvNames.ResolvesOnlyItsOwn` | `kern/env.c:112-147` | a non-zero id resolves only to the allocation that received it, never to a later occupant of the slot |
| `EnvNames.UnknownIdsRefused` | `kern/env.c:112-147` | every other non-zero id is refused |
| `Fork.StepKeepsInv` | `user/lib/fork.c:16-152` | each store, fault, copied byte, mem_map and walk step keeps the sharing invariant |
| `Fork.EveryRunKeepsInv` | `user/lib/fork.c:16-152` | the invariant holds in every interleaving of several forks, faults and stores |
| `Fork.ForkRefinesMemories` | `user/lib/fork.c:72-152` | in every interleaving each running environment reads exactly what independent memories, copied page by page, would hold |
| `Fork.StoresArePrivate` | `user/lib/fork.c:16-48` | a store to a page that is not LIBRARY is seen through no other page, except the child's page that is just being protected |
| `Fork.LibraryIsShared` | `user/lib/fork.c:72-152` | each LIBRARY page the parent had is mapped by the child, when fork returns, to the same frame, and in every continuation both read the same there |
| `Fork.LibraryStays` | `user/lib/fork.c:16-94` | no step changes the frame or permission of a LIBRARY page |
| `Fork.ProtectedIsCopied` | `user/lib/fork.c:72-94` | when a page is write-protected the child holds what the parent holds at that moment, and both are copy-on-write |
| `Fork.ChildIsComplete` | `user/lib/fork.c:107-152` | when fork returns the child has every page below USTACKTOP the parent had when it began |
| `Fork.ForkGivesEveryPage` | `user/lib/fork.c:107-152` | from the beginning of one fork to its end, whatever everybody does in between, each page of the parent becomes the child's with a like permission, and stays the parent's |
| `Fork.ForkCanFinish` | `user/lib/fork.c:107-152` | from every reachable state the parent alone can finish its fork, and the child then runs |
| `Fork.DupIsExact` | `user/lib/fork.c:72-94` | duppage bit by bit: read-only, library and copy-on-write pages are passed on as they are; private writable ones become copy-on-write in both, all other bits kept |
| `Fork.EveryRunKeepsAlike` | `user/lib/fork.c:18-52` | in every run a page that could be written, at once or after a fault, still can be, all other bits stay, and one that could not is left alone |
| `Fork.ChildMayDoTheSame` | `user/lib/fork.c:72-94` | for ever after fork the child can do with each page what the parent could |
| `Fork.CowEndMakesWritable` | `user/lib/fork.c:18-52` | when cow_entry is done the page has PTE_D and not PTE_COW, all other bits are as before, and the store that faulted can be made |
| `Fork.StoreCanBeMade` | `user/lib/fork.c:18-52` | a process in user code can make every store to a writable or copy-on-write page after at most one run of the handler |
| `Fork.StoreIsReadBack` | `user/lib/fork.c:40-41` | a store changes the one byte it is for |
| `PipeEnds.CountsExact` | `user/lib/pageref.c:3-17` | what the two reference counts say in any state, half-open slots included |
| `PipeEnds.ClosedIff` | `user/lib/pipe.c:95-118` | exactly when equal counts are found |
| `PipeEnds.EqualMeansClosed` | `user/lib/pipe.c:95-118` | with every Fd page backed by a pipe page, equal counts mean that the other end has no holder |
| `PipeEnds.StepKeepsInv` | `user/lib/fd.c:94-161` | each system call of close, dup and the check keeps: an Fd page is mapped only while its pipe page is, and counts read are right while env_runs is unchanged |
| `PipeEnds.EveryRunKeepsInv` | `user/lib/pipe.c:240-245` | the same in every interleaving |
| `PipeEnds.EndsStayClosed` | `user/lib/fd.c:116-161` | no step opens an end that nobody holds |
| `PipeEnds.PipePageCovers` | `user/lib/pipe.c:95-118` | in every interleaving the pipe page has at least readers plus writers references |
| `PipeEnds.NoFalseEndOfPipe` | `user/lib/pipe.c:95-118` | an answer of 1 means nobody holds the other end, now or in any continuation |
| `PipeEnds.QuietCheckIsExact` | `user/lib/pipe.c:95-118` | between calls the check answers 1 exactly when the other end is closed |
| `PipeEnds.CheckAnswers` | `user/lib/pipe.c:95-120` | undisturbed, the check answers 1 if and only if the counts are equal |
| `PipeEnds.CloseCloses` | `user/lib/pipe.c:240-245` | undisturbed, close gives up both pages of the descriptor and nothing else |
| `PipeEnds.DupDuplicates` | `user/lib/fd.c:116-161` | undisturbed, dup leaves the old descriptor open and the new one open on the same end, whatever it was before |
| `PipeEnds.DupToItselfCloses` | `user/lib/fd.c:116-161` | dup of a descriptor to itself closes it |
| `PipeEnds.ShareHandsOver` | `user/lib/fork.c:72-94` | a child that shares a descriptor has both pages on the same end, and each count is one higher |
| `PipeEnds.BackedIffInOrder` | `user/lib/fork.c:129-141` | a step keeps every Fd page backed if and only if it shares no Fd page ahead of its pipe page |
| `PipeEnds.HalfSharedSlotLies` | `user/lib/fork.c:129-141` | a concrete run in the order of fork: seen half way, the check answers 1 while a writer has the pipe open |
| `PipeData.ActKeepsInv` | `user/lib/pipe.c:133-203` | each move of pipe_read and pipe_write, between any calls of any number of other processes, keeps the buffer invariant |
| `PipeData.EveryRunKeepsPipe` | `user/lib/pipe.c:133-203` | the same in every run |
| `PipeData.PipeIsFifo` | `user/lib/pipe.c:133-203` | the bytes read are a prefix of the bytes written and at most 32 are on the way, whoever else holds, duplicates, shares and closes the ends between transfers |
| `PipeData.ShortReadIsEndOfFile` | `user/lib/pipe.c:133-160` | pipe_read returns n bytes, or the write end is gone and every byte written has been read |
| `PipeData.ShortWriteMeansNoReader` | `user/lib/pipe.c:173-203` | pipe_write puts all its bytes in order, or a prefix once the read end is gone |
| `PipeCases.ReadIff` | `user/lib/pipe.c:133-160` | any number of processes read and write at once; in every state with all of them between calls: in no run does this read take from an empty pipe if and only if it is for 0 bytes, or no other process holds the read end, or the pipe is empty and only its own process holds the write end |
| `PipeCases.WriteIff` | `user/lib/pipe.c:173-203` | likewise: in no run does this write put a byte over an unread one if and only if it is of 0 bytes, or no other process holds the write end, or the pipe is full and only its own process holds the read end |
| `PipeCases.UnsoundBreaks` | `user/lib/pipe.c:133-203` | the bad run for every other state of either call: another process does all there is to do between the tests and the move, if need be after one byte more has come or gone; or the two end checks are told different things |
| `PipeCases.SoleIsRight` | `user/lib/pipe.c:133-203` | a call by the only process at its end is right from every reachable state, whatever the others are in the middle of |
| `PipeCases.MoveAll` | `user/lib/pipe.c:133-203` | a call that is not disturbed and finds all it needs moves exactly that many bytes and returns |
| `PipeCases.ReturnsWhenClosed` | `user/lib/pipe.c:150-154` | a reader of an empty pipe, and any writer, that finds the pipe closed returns |
| `PipeCases.WaitsWhileOpen` | `user/lib/pipe.c:150-152` | a reader of an empty pipe, or a writer to a full one, that finds it open waits |
| `PipeCases.EveryRunKeepsJobs` | `user/lib/pipe.c:133-203` | in every run of the free machine each process inside a call still holds the descriptor of the call, and is at one of its own end checks |
| `PipeCases.GuardedRunIsCrowdRun` | `user/lib/pipe.c:133-203` | every run of PipeData, in which only the sole holder of an end transfers, is a run of the free machine, byte for byte |
| `PipeCases.LastByteTakenTwice` | `user/lib/pipe.c:150-155` | a concrete run: one byte, two readers, and both take it |
| `PipeCases.SecondReaderBreaksReads` | `user/lib/pipe.c:150-155` | a concrete run with no writer and two readers, one of them about to close, in which a byte is taken from an empty pipe |
| `Queue.ListHead.InsertHead` | `include/queue.h:140-146` | the heap list stays well formed and is [x] + s |
| `Queue.ListHead.InsertBefore` | `include/queue.h:128-134` | inserts before the k-th element, through its back pointer alone |
| `Queue.ListHead.Remove` | `include/queue.h:154-159` | deletes the k-th element |
| `Queue.TailQueue.InsertHead` | `include/queue.h:190-198` | [x] + s, the tail pointer right also for an empty queue |
| `Queue.TailQueue.InsertTail` | `include/queue.h:200-206` | s + [x] |
| `Queue.TailQueue.InsertAfter` | `include/queue.h:208-216` | inserts after the k-th element, the last one included |
| `Queue.TailQueue.InsertBefore` | `include/queue.h:218-224` | inserts before the k-th element, the first one included |
| `Queue.TailQueue.Remove` | `include/queue.h:226-233` | deletes the k-th element, first, last or only one included |
| `Queue.TailQueue.RemoveStale` | `include/queue.h:226-233` | applied to an element outside the queue, as env_free does for a blocked environment: the queue survives if and only if the stale links of the element still fit it, and an element that was never queued makes the macro write through null |
| `Queue.DestroyedWhileBlocked` | `kern/env.c:417-419` | a concrete queue that loses a runnable environment that way |
| `Queue.TailQueue.Concat` | `include/queue.h:242-250` | s + t, and the second queue is empty |
| `Queue.TailQueue.Elements` | `include/queue.h:235-236` | walking the next pointers gives the sequence |
| `Queue.TailQueue.Last` | `include/queue.h:259-259` | reading the links as a queue head gives the last element, or none |
| `Queue.TailQueue.Prev` | `include/queue.h:260-260` | gives the predecessor, or none |
| `Sched.ScheduleKeepsInv` | `kern/sched.c:17-51` | schedule keeps the queue invariant, runs a runnable environment, and panics only when there is none |
| `Sched.YieldPicksAnother` | `kern/sched.c:17-51` | a yielding environment is picked again only if it is the sole runnable one |
| `Sched.EventKeepsInv` | `kern/syscall_all.c:239-426` | each kernel call that moves environments in and out of the queue keeps the invariant |
| `Sched.EveryRunKeepsInv` | `kern/syscall_all.c:239-426` | the same in every run |
| `Sched.QueueIsTheRunnable` | `kern/env.c:417-419` | in every run env_sched_list holds exactly the runnable environments, once each, and no waiting receiver |
| `Sched.SetStatusKeepsInvIff` | `kern/syscall_all.c:274-298` | sys_set_env_status keeps the invariant when suspending; when waking, if and only if the environment has a priority, is not waiting in a receive and is not the caller behind others |
| `Sched.FreeKeepsInvIff` | `kern/env.c:381-420` | as far as the fields of the slot go, destroying any live environment keeps the invariant if and only if it was not waiting in a receive; what its queue links do is in SchedList.Scheduler.EnvDestroy |
| `Sched.DestroyedReceiverDuplicates` | `kern/env.c:240-281` | the next occupant of a destroyed receiver still counts as receiving, because nothing clears the flag, and once runnable is queued twice by a send |
| `Sched.WakingAReceiverDuplicates` | `kern/syscall_all.c:274-298` | the bad case is real: a receiver woken that way is queued twice at the next send |
| `Sched.MessagesInOrder` | `kern/syscall_all.c:345-426` | an environment observes exactly the sends that found it waiting, in order, none twice, none overwritten |
| `Sched.SendDeliversOnce` | `kern/syscall_all.c:383-426` | a send is delivered exactly when the target waits, and closes it to further sends |
| `Sched.ScheduleBringsCloser` | `kern/sched.c:17-51` | each call of schedule strictly lowers the slices ahead of every waiting environment, or runs it |
| `Sched.EventBringsCloser` | `kern/sched.c:17-51` | arrivals, blocking and deaths never move a waiting environment back |
| `Sched.BoundedWaiting` | `kern/sched.c:17-51` | a waiting environment runs within as many calls of schedule as there are slices ahead of it |
| `Sched.SliceIsPriority` | `kern/sched.c:37-50` | whatever made the kernel pick an environment, it keeps the CPU for fewer ticks than its priority, and not for as many if another can run |
| `Sched.KeepsTheCpu` | `kern/sched.c:37-50` | in any run of calls the running environment keeps the CPU while it does not give it up and its slice lasts |
| `Sched.CallsDoWhatTheySay` | `kern/syscall_all.c:239-426` | what each call does to the environment it is about: status, place in the queue, waiting, message |
| `Sched.OnlyTheNamedChange` | `kern/syscall_all.c:239-426` | no call changes a priority except that a child gets the caller's, and none touches an environment but the caller and the one it names |
| `Sched.ReachedByTicksIff` | `kern/sched.c:17-51` | by the clock alone a queued environment is reached if and only if the slice count is not negative and everyone between the head and it has priority at least 1 |
| `Sched.ZeroPriorityKeepsTheCpu` | `kern/sched.c:17-51` | with a priority of 0 next in the queue and the slice used up, that environment has the CPU after every further number of ticks |
| `SchedList.Scheduler.Schedule` | `kern/sched.c:17-51` | the code on the intrusive heap queue does what the value-level schedule does |
| `SchedList.Scheduler.SysIpcRecv` | `kern/syscall_all.c:345-365` | on the heap queue: the caller is blocked, unqueued, and another runs |
| `SchedList.Scheduler.Deliver` | `kern/syscall_all.c:403-413` | on the heap queue: the message is filled in and the receiver queued |
| `SchedList.Scheduler.SysSetEnvStatus` | `kern/syscall_all.c:274-298` | on the heap queue: status and queue membership change together, bad statuses are refused; exactly when the invariant survives |
| `SchedList.Scheduler.EnvCreate` | `kern/env.c:361-376` | a boot environment goes to the head of the queue |
| `SchedList.Scheduler.EnvDestroy` | `kern/env.c:425-435` | a queued environment leaves the queue, and if it was running another one is run; one that is not queued is freed with the invariant kept if and only if its old links fit and it was not receiving |
| `SchedList.Scheduler.DestroyUnqueued` | `kern/env.c:417-419` | the exact outcome for an environment that is not queued, the null write included |
| `SchedList.DestroyedBeforeQueued` | `user/lib/spawn.c:242-246` | destroying a child that was never runnable, as spawn does when it gives up, ends in a write through null |
| `System.Os.Schedule` | `kern/sched.c:17-51` | the environment that schedule picks has a live address space, and all hits under its own ASID are its current translations |
| `System.Os.SysExofork` | `kern/syscall_all.c:239-260` | address space and process record come together; the child is not runnable yet |
| `System.Os.SysEnvDestroy` | `kern/syscall_all.c:77-84` | for any id: address space and queue place go together, another environment runs if it was the caller, and the joint invariant survives if and only if the target was runnable, or had links that still fit and was not receiving |
| `System.Os.SysIpcRecv` | `kern/syscall_all.c:345-365` | an illegal address is refused; otherwise the address is stored, the caller blocks and another environment with a live address space runs |
| `System.Os.SysIpcTrySend` | `kern/syscall_all.c:383-426` | all return values in the order of the checks, for any perm, with the page really looked up and mapped at the receiver; the message is delivered before the page is looked at; exactly when the invariant survives |
| `FileServer.Server.FreeBlock` | `fs/fs.c:198-209` | sets that bit and no other; block 0 and numbers past the end are ignored |
| `FileServer.Server.AllocBlockNum` | `fs/fs.c:217-230` | the lowest free block from 3 on; no disk exactly when there is none |
| `FileServer.Server.AllocBlock` | `fs/fs.c:234-250` | fails exactly when no block is free or no memory is to be had, with the error for each, and then the bitmap is as before |
| `FileServer.Server.FileBlockWalk` | `fs/fs.c:369-404` | makes the indirect block when asked; all errors; single ownership survives if and only if a block so taken is not cached or reads as zeros |
| `FileServer.Server.MakeIndirect` | `fs/fs.c:381-390` | without any guard: the lowest free block becomes the indirect block with whatever the cache holds for it |
| `FileServer.Server.FileMapBlock` | `fs/fs.c:417-441` | returns the block of the slot, allocating a block that was free; single ownership is kept if and only if an indirect block that has to be made is taken from a block that is not cached or reads as zeros; with alloc it succeeds exactly when the blocks and pages it needs can be had, counted one or two, and otherwise says which was missing |
| `FileServer.StaleStays` | `fs/fs.c:417-441` | filling the slot afterwards does not repair a stale indirect block |
| `FileServer.SecondIsNext` | `fs/fs.c:384-390` | once the indirect block is taken, alloc_block finds the second free block |
| `FileServer.Server.FileClearBlock` | `fs/fs.c:445-459` | empties exactly that slot and frees exactly its block |
| `FileServer.Server.FileTruncate` | `fs/fs.c:783-808` | frees exactly the slots from the new number of blocks on, and the indirect block when the rest fits the direct slots, if and only if no slot past the end of the file is set; also in bytes, as CutToIff |
| `FileServer.Server.FileSetSize` | `fs/fs.c:812-824` | truncates when shrinking, with the same condition, otherwise moves no block |
| `Blocks.GiveSlot` | `fs/fs.c:427-436` | a free block given to an empty slot keeps used = reserved + singly owned |
| `Blocks.TakeSlot` | `fs/fs.c:445-459` | a slot's block taken back keeps it |
| `Blocks.GiveInd` | `fs/fs.c:381-390` | a free block that reads as zeros given as indirect block keeps it |
| `Blocks.TakeInd` | `fs/fs.c:797-800` | an indirect block without set slots taken back keeps it |
| `Blocks.DataWriteKeeps` | `fs/fs.c:468-483` | writing file data moves no block |
| `Blocks.GiveIndIff` | `fs/fs.c:140-151` | a recycled block as indirect block keeps ownership exactly when it is not cached or reads as zeros |
| `FileServer.StaleIndirectBlock` | `fs/fs.c:381-396` | the bad case is real, reached by calls: a block that was written, truncated away and still cached becomes an indirect block whose slot claims the super block |
| `FileServer.BlockPastEndStays` | `fs/fs.c:783-808` | the bad case is real, reached by calls: a block mapped past the end of a file is not freed by truncation |
| `FileServer.TruncateIff` | `fs/fs.c:783-808` | what the end of file_truncate does to the ownership of every block |
| `FileServer.CutToIff` | `fs/fs.c:783-808` | the same in bytes: the block of every byte below the new size stays, the slots after it are empty and their blocks free, no indirect block is left unless the new size needs it, and other files are as they were, if and only if no slot past the end was set |
| `ImageBuilder.Builder.constructor` | `tools/fsformat.c:105-133` | blocks 0 to 2 are taken, the root is empty, the bitmap says free for all blocks below NBLOCK |
| `ImageBuilder.Builder.NextBlock` | `tools/fsformat.c:136-139` | hands out the next block number |
| `ImageBuilder.Builder.SaveBlockLink` | `tools/fsformat.c:172-184` | slot nblk names the block, through a new index block for the first indirect slot; fits exactly when the index is below NINDIRECT and that block can be had |
| `ImageBuilder.Builder.MakeLinkBlock` | `tools/fsformat.c:187-192` | a blank directory block is linked and the directory grows by one block |
| `ImageBuilder.Builder.CreateFile` | `tools/fsformat.c:207-240` | the directory lists one record more, in order; looking at the last block alone loses nothing |
| `ImageBuilder.Builder.WriteFile` | `tools/fsformat.c:243-272` | every block of the file can be read back from its slot, and all that was written before still can |
| `ImageBuilder.Builder.WriteSymlink` | `tools/fsformat.c:274-294` | the same for a link with its one block |
| `ImageBuilder.Builder.WriteDirectory` | `tools/fsformat.c:303-332` | the whole subtree can be read back, its entries in order; fits exactly when its blocks do |
| `ImageBuilder.Builder.WriteTree` | `tools/fsformat.c:317-330` | the same for any kind of entry |
| `ImageBuilder.Builder.FlushBitmap` | `tools/fsformat.c:142-148` | bit i is free exactly when nextbno <= i < NBLOCK |
| `ImageBuilder.Format` | `tools/fsformat.c:334-367` | for any arguments: fits exactly when the blocks needed do; then the image holds the trees, meets the file server's ownership invariant, and the bitmap is exact |
| `ImageBuilder.MapStored` | `fs/fs.c:369-441` | file_map_block without allocation returns, for every index, the block the builder linked, and not-found past the last |
| `ImageBuilder.LinkKeeps` | `tools/fsformat.c:172-184` | handing out a block and linking it, with or without a new index block, keeps every used block linked exactly once |
| `ImageBuilder.RepresentsKept` | `tools/fsformat.c:303-332` | what has been written stays readable while other directories grow |
| `ElfLoader.Target.MapPage` | `kern/env.c:298-320` | a fresh zeroed page with the bytes at the offset replaces whatever was mapped |
| `ElfLoader.Target.ElfLoadSeg` | `lib/elfloader.c:25-59` | unless the file part ends inside an unaligned first page with zeros to follow, each page of the segment is as the ABI asks and mapped once, others untouched; otherwise the exact blanked image; fails exactly when the mapper does |
| `ElfLoader.Target.ZeroFill` | `lib/elfloader.c:51-58` | what the second loop makes of either case |
| `ElfLoader.MappedOnceIff` | `lib/elfloader.c:36-57` | every page is mapped exactly once if and only if that case is avoided |
| `ElfLoader.ImageIff` | `lib/elfloader.c:36-57` | the image is right if and only if that case is avoided, or the file bytes are zero and the blank pages reach the end |
| `ElfLoader.LoadedBytes` | `lib/elfloader.c:25-59` | byte k is the file's below p_filesz and 0 up to p_memsz, with the segment's write permission |
| `ElfLoader.ShortSegmentLost` | `lib/elfloader.c:25-59` | a concrete segment whose bytes are lost when it is loaded |
| `History.Store.constructor` | `user/lib/history.c:7-16` | an empty history, whatever an earlier session left in the file |
| `History.Store.WriteEntry` | `user/lib/history.c:18-30` | five writes make one entry with its end mark |
| `History.Store.ReadDownEntry` | `user/lib/history.c:32-40` | reads the entry that starts at the offset |
| `History.Store.ReadUpEntry` | `user/lib/history.c:42-51` | reads the entry that ends at the offset |
| `History.Store.HistoryWrite` | `user/lib/history.c:56-71` | appends to the zipper and forgets the unfinished line; an empty line is refused |
| `History.Store.HistoryGetAll` | `user/lib/history.c:77-94` | yields all entries and, if one is saved, the unfinished line; just the commands if and only if fakeMaxOff <= maxOff + 8; before the first command, what an earlier session left |
| `History.Store.HistoryNext` | `user/lib/history.c:103-135` | moves the zipper and returns code and text, in all cases; the offsets stay on entry boundaries |
| `History.IntRoundTrip` | `user/lib/history.c:32-40` | an int written as four bytes is read back |
| `History.LineIsThere` | `user/lib/history.c:32-51` | every zipper position is an entry boundary of the file at which its line can be read in both directions |
| `History.EntriesAreCommands` | `user/lib/history.c:56-135` | in every session the entries are the commands entered, in order |
| `History.AllIsCommandsIff` | `user/lib/history.c:77-94` | reading forward yields exactly the session's commands if and only if no unfinished line is saved, as right after a command |
| `History.UnfinishedLineListed` | `user/lib/history.c:77-94` | after one command, moving up from an unfinished line makes it appear in the list |
| `History.UpThenDown` | `user/lib/history.c:103-135` | up then down returns to the same place and line, from every place but the one behind a saved line |
| `History.DownThenUp` | `user/lib/history.c:103-135` | down then up returns to the same entry |
| `History.UpsThenDowns` | `user/lib/history.c:103-135` | n steps up show the n-th last command, n steps down bring the unfinished line back |
| `PrintNum.PrintNum` | `lib/print.c:238-311` | the buffer code, within its length + 70 characters, gives sign, digits and padding in the layout specified |
| `PrintNum.WriteDigits` | `lib/print.c:255-265` | the digits lowest first, at most 32 |
| `PrintNum.Pad` | `lib/print.c:271-290` | the padding, with the sign moved outside zeros |
| `PrintNum.ReverseFirst` | `lib/print.c:292-308` | reverses exactly the first n characters in place |
| `PrintNum.NumeralDenotes` | `lib/print.c:255-265` | the digits denote the number in the given base |
| `PrintNum.PrintedLength` | `lib/print.c:271-275` | the length is max(width, digits + sign) |
| `PrintNum.PrintedLayout` | `lib/print.c:271-308` | where every character stands: digits at the side asked for, the minus sign before them or before the zeros, padding elsewhere |
| `PrintNum.NumeralCase` | `lib/print.c:255-265` | letters are of the case asked for |
| `PrintNum.ReadInverts` | `lib/print.c:238-311` | without padding the output denotes the signed input, for every base, width, side and padding |
| `PrintNum.StrToUint` | `lib/string.c:187-198` | the decimal value in an int, or -1 for any other character |
| `PrintNum.ParseInvertsIff` | `lib/string.c:187-198` | strToUint inverts the decimal output if and only if there is no sign, no blank, and the number is at most INT_MAX |

## Left out

- Kernel.Machine.constructor: the boot state is assumed as page_init and map_segment are meant to leave it; their loops are not modelled.
- Kernel.Machine.PageInsert: the perm bits below 0x1000 that have no name are not modelled; they change no page number.
- Kernel.Machine.UserStore: stores are of one word at a time; what the kernel does on tables that a user has rewritten is not followed.
- Kernel.Machine.SysExofork: memory and names only; registers and status are in `Sched`.
- Kernel.Machine.EnvRun: memory only; saving and restoring registers is left out.
- EnvNames.ResolvesOnlyItsOwn: for fewer than 2^21 allocations; ResolvesIff says what happens after that.
- Fork.ForkRefinesMemories: the system calls succeed, no page is passed by IPC, and private writable pages are unaliased at the start.
- PipeEnds.NoFalseEndOfPipe: fork and spawn share both pages of a slot in one step, because their walk maps the Fd page first; env_runs does not wrap.
- PipeData.PipeIsFifo: during a transfer no other process holds the same end, as ReadIff and WriteIff require; one byte is moved at a time, and there are fewer than 2^32 bytes in all, since positions are compared directly.
- PipeCases.ReadIff: from states with all processes between calls, and for positions more than a buffer and a byte away from 2^32; taking a byte and advancing p_rpos is one move, as is putting one; the return values are in PipeData.
- PipeCases.WriteIff: under the same conditions.
- Sched.EveryRunKeepsInv: env_free is applied to queued environments (DestroyUnqueued and FreeKeepsInvIff say what happens otherwise), and only environments that are not waiting in a receive are woken, as fork and spawn do; an environment that has suspended itself makes no further calls before the next tick or yield; a message carries the sender's slot instead of its id.
- Sched.ReachedByTicksIff: the slice count does not wrap below the smallest int.
- SchedList.Scheduler.EnvDestroy: not of the running environment after it has suspended itself; what the kernel does on a broken queue is not followed.
- Sched.BoundedWaiting: priorities are at least 1.
- FileServer.Server.FileMapBlock: the file records are a table beside the blocks, and reading a block from disk never fails.
- FileServer.Server.FileTruncate: the write-back of dirty blocks is left out.
- FileServer.Server.FileSetSize: the flush of the directory afterwards is left out.
- ImageBuilder.Format: names, types and byte order of records are left out, directory blocks hold record numbers; a disk that is too small ends the run where the program would write past its array.
- ElfLoader.Target.ElfLoadSeg: addresses do not wrap around 2^32; the mapper's failure is a number of calls that still succeed.
- History.Store.HistoryGetAll: before the first command of a session the file holds a log of an earlier one; on an empty file the code reads uninitialised memory.
- History.Store.HistoryNext: opening, reading and writing the file succeed, and lengths fit an int.
- PrintNum.PrintNum: bases 2 to 36 and non-negative widths.
- PrintNum.StrToUint: int arithmetic wraps at 32 bits, which C leaves undefined.
- dir_lookup, walk_path, file_open and the rest of the directory code of the file server: string comparison over records whose blocks are covered.
- memcpy, memset and the string functions of lib/string.c: they would only add easy members.
- LIST_INSERT_AFTER: fails on the last element and is used only by the kernel's own checks.
- unmap_block, write_block and dirty bits of the block cache.
- The line editor, tab completion, shell commands and shell variables.
- Device access, exception entry and assembly, beyond the TLB operations.
