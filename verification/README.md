# A model of the RV32X core and its serial line

The repository is an RV32IMA processor and a small system around it, written in NSL, a language
of clocked state machines. This project models the units whose correctness is hardest to see from
one state at a time, and proves what each promises in every run:

- the **data cache** (two-way, write-back) with the memory behind it is flat byte memory, also when
  its 128-bit transfers are cut into five word beats, and a flush leaves nothing behind;
- the **load/store unit** on that cache completes loads, stores, LR/SC, AMOs and page-table walks
  as indivisible steps, and a store-conditional succeeds exactly when it should;
- **Sv32 translation**, in data and instruction accesses since the last sfence.vma, grants what section
  4.3.2 of the RISC-V Privileged ISA 1.12 grants wherever the page tables are well formed, and exactly
  there, and faults where it faults, but for the fault of a walk whose fetch has been redirected;
- **fence.i** makes every earlier store visible to every later fetch, over word beats in every run in
  which the fetch unit takes no wrong stale word, and for the two ports by themselves exactly then;
- the **serial link** delivers every byte, in order, although sender and receiver count bit times
  of 1303 and 1304 clocks;
- **division and multiplication** are sections 7.1 and 7.2 of the RISC-V Unprivileged ISA 20191213;
- a **CSR** write stores each writable bit in every register that shows it and nothing else, a trap records
  its cause, PC, level and enable, copies of a bit stay equal, and traps and returns nest;
- **branch prediction** does not change the sequence of PCs executed, traps and returns included exactly
  as long as the code they go to contradicts no prediction in the buffer.

## How a unit is modelled

Each unit is one function, `Next` (or `Step`), from a state and the inputs of a clock to the next
state and the outputs, with one case per state of the source. Beside it stands a class whose
methods update fields and arrays in place, as the source's registers and memories do; every method
is proved equal to the function, and the properties are proved about runs of the function. Ready
signals, requests and enables are free inputs in every clock, so each theorem holds for every
pattern of delays.

An address is the fields the units cut it into, `Addr(BlockId(tag, index), word, byte)`, and a word
in memory is its four byte lanes. `Memory` proves that this view and 2^32 separate bytes agree, and
the results about caches are stated on bytes.

Files by subject: `Words`, `Memory`, `Arith` (words, memory, 33-bit subtraction); `DataCache*` and
`Burst` (data cache, flush, bus beats); `Paging`, `Translation`, `Sv32Format`, `Ptw`, `LoadStore*`,
`WalkProgress`, `CommandProgress`, `Amo` (load/store unit); `IFetch*` (fetch unit); `Core*`, `Fences`, `FenceProgress`,
`FetchTranslation`, `FetchFaults` (both units with the fence handshakes); `TwoPorts*`, `FenceI` (the
same over two five-beat ports); `Uart*`, `Fifo`; `Divide`, `MulDiv`; `Csr*`; `Btb`, `FrontEnd*`.

## Where the code and its intent part

- `core/cache.nsl:274-275` and `:278-279` assign the victim's valid bit twice in one clock, and the
  second value, CLEAN, equals INVALID. The outcome is an input of the model in every clock:
  the bit stays valid, turns invalid, or the second assignment clears the dirty bit, which is the
  evident intent. Outside flushes all three are right. For flushes
  `DataCacheDoubleWrite.DoubleWriteMustNotInvalidate` proves the cache right in every run if and only
  if the bit does not turn invalid, and exhibits the run that fails; all results that involve a flush
  take that as their one assumption about it.
- The first beat of a block write offers memory stale data for word 0, and the fifth corrects it
  (`core/rv32x_core.nsl:1228-1260`). If memory takes the first beat and the fetch unit takes word 0 of that
  block before the fifth, it caches a word of another block, although no store touched it:
  `TwoPortsClash.StaleWordFetched` is such a run from power-on. `TwoPortsClash.ClashIsExact` proves, for a
  clock in any reachable state, that every later delivery is right if and only if the clock is not such a
  clash, or the word has been stored to, or the stale word happens to equal the right one.
  Results about fetches over beats assume that clashes do no harm (`HarmlessRun`).
- The unit grants two kinds of access section 4.3.2 refuses: through a misaligned superpage, and
  through a write-only entry of a last-level table. `Translation.TranslatesAsSpecified` proves that
  these are all.
- A jump to the same offset of another page while the fetch unit compares tags is answered with the
  word of the page it left, because the check at `core/ifetch_unit.nsl:99-116` compares the index only.
  `IFetchProof.RightExactlyWithTag` proves a delivered word the requested one if and only if the tag
  latched is the one then wanted; `IFetchProof.RedirectFetchesOldPage` is a run in which it is not.
- Nothing cancels a walk when the fetch stage goes elsewhere (`core/ifetch_unit.nsl:87-98`), and the core
  takes an instruction page fault at the PC then asserted (`core/rv32x_core.nsl:884-893`): a redirected
  fetch, of a page that section 4.3.2 grants or in M mode, can take another page's fault.
  `FetchFaults.RedirectTakesFault` is such a run from power-on, and `FetchFaults.WalkFaultRightExactly`
  proves the fault of a walk right for all page tables if and only if translation is on and the fetch
  asserted is for the page walked.
- A page-table access outside memory sends the load/store unit to idle but leaves the walker asking,
  and every later clock in which nothing is asked faults again (`WalkProgress.WalkAccessFaultRepeats`); a
  walk leaves the walker idle if and only if it read no such table (`WalkProgress.WalkerIdleExactly`).
  The first is a load access fault for a store too. Runs of the load/store unit therefore assume page
  tables in existing memory.
- A division by zero is answered before the unit has registered whether quotient or remainder is
  wanted (`MulDiv.ZeroDivisorUsesOldSelector`).
- The decoder clears bit 0 of a register jump's immediate (`core/inst_dec.nsl:28`) and nothing clears bit 0
  of the sum, so a jump from an odd base traps. `FrontEndProof.ResolutionIsRight`: the core goes on at
  RV32I's next PC if and only if it is not a register jump from an odd base to a target that RV32I, with
  the last bit cleared, finds aligned (or the trap vector is that target).
- A trap or return can change what is seen at a PC and does not flush the branch target buffer
  (`core/rv32x5p.nsl:55-58`), and nothing repairs a plain instruction predicted to be a taken branch
  (`core/rv32x5p.nsl:440-447`). `FrontEndProof.StalePredictionAfterTrap` is a run in which such code goes
  astray, and `FrontEndProof.RedirectRightExactly` proves a redirect right, wherever it goes, if and only
  if no entry in a predicting state contradicts the code then seen.
- The comment at `core/btb.nsl:8-14` says a prediction moves after two mispredictions. It takes one
  to withdraw a prediction of taken (`FrontEndProof.OneMispredictionWithdraws`), because the buffer is
  updated on mispredictions only and its state never reaches 3.
- The level a trap to S came from is one bit, so an sret after a trap from M does not return to M
  (`CsrProof.SupervisorTripRestores`); a trap to U stores its PC in mepc (`core/rv32x_core.nsl:1001-1013`);
  mret leaves mpp at M; writing sie copies an undriven wire into the user pending bits
  (`core/rv32x_core.nsl:489-509`), which is a free input here; a read of mip returns a one at bit 10
  (`core/rv32x_core.nsl:261`).

## Model

| member | source | states |
|---|---|---|
| Memory.LoadIsFlat | core/cache.nsl:136-262 | choosing a byte, half or word out of a block by its offsets is reading that many consecutive bytes of flat memory at the aligned address |
| Memory.StoreIsFlat | core/cache.nsl:136-262 | merging a byte, half or word into a block changes exactly those bytes of flat memory and no other byte anywhere |
| DataCacheUnit.Unit.Clock | core/cache.nsl:68-345 | one clock of the cache, with its arrays updated in place, is the modelled step |
| DataCacheProof.StepRefines | core/cache.nsl:68-345 | every clock keeps the invariant: no tag valid in both ways, dirty implies valid but for a victim being replaced, every valid line equals logical memory, memory right wherever no dirty line covers it; an answered load is the logical memory's, a finished flush leaves memory equal to it |
| DataCacheProof.WriteBackKeepsLines | core/cache.nsl:263-282 | writing back keeps every line right for each outcome of the double write; only in a flush must the bit not turn invalid |
| DataCacheProof.MemoryCommitted | core/cache.nsl:263-282 | committing a writeback makes memory right about its block whatever becomes of the victim's bits |
| DataCacheProof.FlushEndRefines | core/cache.nsl:320-343 | after all 512 positions, memory equals logical memory |
| DataCacheProof.RunRefines | core/cache.nsl:68-345 | every run from any reachable state answers as flat memory and keeps the invariant |
| DataCacheResults.CacheIsFlatMemory | core/cache.nsl:68-345 | from power-on, for all requests held until ready, all delays, all fixed attributes: each load returns what 2^32 bytes updated by the stores before it hold |
| DataCacheResults.FlushEndsSynced | core/cache.nsl:320-343 | whenever a flush reports done, memory is the flat memory the answered stores have made |
| DataCacheResults.FaultsExactly | core/cache.nsl:68-135 | an access fault is raised if and only if an idle cache is asked for a block that is not there, and changes nothing |
| DataCacheResults.AttributesRespected | core/cache.nsl:68-135 | in every reachable state only cacheable blocks are filled, written back or held valid, and only uncacheable ones are accessed word by word, with the request asked for |
| DataCacheResults.HitMakesOtherLru | core/cache.nsl:136-262 | a hit leaves the other way to be replaced next |
| DataCacheResults.WorkDecreases | core/cache.nsl:263-343 | each clock not spent waiting for memory strictly lowers a measure; a waiting clock leaves state and measure as they are |
| DataCacheResults.WorkBound | core/cache.nsl:320-343 | the measure is at most 1026, for a whole flush of 512 positions |
| DataCacheResults.ReturnsToIdle | core/cache.nsl:263-343 | from any reachable state the cache is idle again once as many clocks have passed without waiting as the measure says, so flushes terminate |
| DataCacheDoubleWrite.FlushRevivesOldStore | core/cache.nsl:263-282 | if the valid bit turns invalid, a concrete run of stores and two flushes ends in a load of an overwritten value |
| DataCacheDoubleWrite.DoubleWriteMustNotInvalidate | core/cache.nsl:263-282 | the cache is flat memory in every run, flushes included, if and only if the double write does not leave INVALID |
| Burst.Unit.ClockRead | core/rv32x_core.nsl:1196-1221 | the read counter and buffer after a clock, and when the burst answers; the instruction side at 1085-1102 has the same counter |
| Burst.Unit.ClockWrite | core/rv32x_core.nsl:1228-1260 | the write counter and buffer after a clock: the first latches without waiting |
| BurstProof.BeatRefines | core/rv32x_core.nsl:1196-1260 | at every beat of a transfer memory differs from before only in the block written; when it completes a read has the four words of its block and a write has left exactly its data, for every ready pattern, stale first beat included |
| BurstProof.TransferEnds | core/rv32x_core.nsl:1196-1260 | a transfer answers at its fifth beat exactly, a direct access at its first; only a write's first beat does not wait for memory |
| BurstProof.WiredRunRefines | core/rv32x_core.nsl:1196-1260 | every run of the cache over word beats is, event for event, a run over whole-block memory |
| BurstProof.CacheOverBusIsFlatMemory | core/rv32x_core.nsl:1196-1260 | the cache over the five-beat bus is flat byte memory for every pattern of beat delays |
| BurstProof.FlushOverBusEndsSynced | core/rv32x_core.nsl:1196-1260 | when a flush reports done no burst is half way: the words in memory are flat memory's |
| Translation.WalksAgree | core/ptw.nsl:17-54 | the walker finds the leaf the specified walk finds; it also accepts last-level entries that are write-only or have neither R nor X |
| Translation.PermissionsAgree | core/load_store_unit.nsl:141-178 | the three permission checks are the specified ones with accessed and dirty bits, for entries that are not write-only |
| Translation.TranslatesAsSpecified | core/load_store_unit.nsl:141-178 | for all page tables, pages, kinds, modes: grant, fault and physical page agree with section 4.3.2 if and only if the leaf is well formed or its permission bits refuse the access |
| Translation.MisalignedSuperpageGranted | core/ptw.nsl:35-54 | a misaligned superpage is granted where the specification faults |
| Translation.WriteOnlyPageExecutable | core/ptw.nsl:35-54 | a write-only entry with X in a last-level table is executable where the specification faults |
| Sv32Format.EntryFlags | core/ptw.nsl:17-54 | the flags of an entry are bits 0 to 7 of its 32-bit word, in the order of section 4.3.1 |
| Sv32Format.EntryNumbers | core/ptw.nsl:17-54 | the page numbers of an entry are bits 31 to 10, 19 to 10 and 31 to 20 of its word |
| Sv32Format.AddressFields | core/ptw.nsl:17-54 | VPN[1], VPN[0] and page offset are bits 31 to 22, 21 to 12 and 11 to 0 of the virtual address |
| Sv32Format.EntryAddress | core/ptw.nsl:17-54 | the walker reads entry n of the table at page p at p * 4096 + 4 * n, modulo 2^32 |
| Sv32Format.PhysicalAddress | core/load_store_unit.nsl:141-178 | a page's physical address is its number times 4096 plus the low 12 bits of the virtual one, a superpage's PPN[1] times 2^22 plus the low 22, modulo 2^32 |
| Ptw.Unit.Clock | core/ptw.nsl:17-54 | one clock of the walker |
| TlbUnit.Unit.ClockRefill | core/tlb.inc:49-54 | a refill replaces the entry at the replacement pointer and no other |
| TlbUnit.Unit.ClockFlush | core/tlb.inc:55-59 | a flush clears every valid bit |
| TlbUnit.Unit.ClockPointer | core/tlb.inc:38-40 | the replacement pointer moves every clock and wraps |
| Amo.ExeMeans | core/amoalu.nsl:5-16 | each funct5 computes what section 8.4 of the Unprivileged ISA asks: wrapped sum, bit-by-bit logic, signed and unsigned min and max of the two numbers |
| Arith.SignedLess | core/sub32.nsl:4-8 | bit 32 of the subtraction of sign-extended words is set exactly when the first is less as a signed number |
| Arith.UnsignedLess | core/sub32.nsl:4-8 | bit 32 of the subtraction of zero-extended words is set exactly when the first is less |
| Arith.EqualIffZero | core/alu32.nsl:13-46 | the low word of either subtraction is zero exactly when the operands are equal |
| LoadStoreUnit.Unit.Clock | core/load_store_unit.nsl:72-276 | one clock of the unit, registers and TLB updated in place, is the modelled step |
| LoadStoreProof.EveryStepAtomic | core/load_store_unit.nsl:192-276 | in any reachable state a clock that answers completes the command the core had asserted, with its operands, at the physical address its virtual one translated to when it was taken, as one indivisible step on logical memory; no other clock changes logical memory |
| LoadStoreProof.JobStep | core/load_store_unit.nsl:72-138 | what the unit latches is the command taken and its translated address, until it is answered or faults |
| LoadStoreProof.InvStep | core/load_store_unit.nsl:72-276 | one master at a time holds its request until the cache answers; cache invariant, AMO registers, reservation and the command in progress stay consistent |
| LoadStoreResults.LoadStoreUnitIsAtomic | core/load_store_unit.nsl:72-276 | from power-on, for any mix of commands, flushes and walks and any delays: the commands answered, in order, are a run of flat byte memory and end in its state; an AMO returns the old word and leaves what its funct5 makes of it and the source |
| LoadStoreResults.LastIsLatest | core/load_store_unit.nsl:90-113 | the reservation always records the latest translated LR or SC of the run |
| LoadStoreResults.StoreConditionalExact | core/load_store_unit.nsl:90-113 | an SC that translates goes on to write if and only if the latest translated LR or SC before it was an LR to the same physical address; otherwise it returns 1 and starts no write; either way the reservation is gone, so an LR enables one success |
| LoadStoreResults.CompletedScExact | core/load_store_unit.nsl:90-113 | every SC answered in a run replies 0 if and only if the translated LR or SC just before it in the run's history is an LR to its physical address, and 1 otherwise |
| LoadStoreResults.AccessFaultsExactly | core/load_store_unit.nsl:192-305 | a command in progress raises an access fault if and only if the block at its physical address is not there: a load access fault for a load or LR, a store one for a store, SC or AMO |
| LoadStoreResults.NoOtherAccessFaults | core/load_store_unit.nsl:299-305 | with no command in progress none is raised, while page tables are in existing memory |
| CommandProgress.NeedFalls | core/load_store_unit.nsl:72-276 | while a command is held without a fence, every clock that neither serves it nor waits for memory strictly lowers a measure, and a waiting one does not raise it |
| CommandProgress.NeedBound | core/load_store_unit.nsl:72-276 | the measure is at most 1210 in every reachable state |
| CommandProgress.CommandEnds | core/load_store_unit.nsl:72-276 | so from any reachable state a held command is answered or faults, its own walk, one for the fetch unit and writebacks before it included |
| LoadStoreTranslation.WalkerClock | core/ptw.nsl:17-54 | each clock of a walk stays on the path of the two-level lookup |
| LoadStoreTranslation.CoherentStep | core/load_store_unit.nsl:217-230 | while root and tables are unchanged, every valid TLB entry is the walk's result for its tag |
| LoadStoreTranslation.DuplicatesAgree | core/tlb.inc:42-48 | entries that match the same page are equal, so several hits drive one value |
| LoadStoreTranslation.ServesRight | core/load_store_unit.nsl:72-178 | satp on and not in M mode: a command whose page is in the TLB is taken with its page offset in the physical page section 4.3.2 grants, exactly when the leaf is well formed, and that address is what the cache is asked for; or section 4.3.2 refuses it and it raises the page fault of its kind; a command whose page is not there raises nothing; either way a page not granted is walked |
| LoadStoreTranslation.ServesPlainly | core/load_store_unit.nsl:72-178 | satp off or M mode: every command is taken at the address it names, without a walk or a fault |
| LoadStoreTranslation.FlushRestores | core/tlb.inc:55-59 | a clock of the TLB flush restores agreement with any page tables and root |
| LoadStoreTranslation.AccessesTranslateAsSpecified | core/load_store_unit.nsl:72-178 | the same two for every command in every mode, after any run, a TLB flush, and a run that keeps satp and tables |
| LoadStoreTranslation.FaultsAsSpecified | core/load_store_unit.nsl:217-230 | since the last TLB flush, every page fault raised, at a lookup or by a walk, is one section 4.3.2 raises for the page looked up or walked, kind and mode |
| LoadStoreTranslation.FaultsAreOwn | core/load_store_unit.nsl:306-312 | for commands held until answered or faulted, every load or store page fault since the last TLB flush is the asserted command's own: its page, kind and mode fault in section 4.3.2; a walk begun by a refused lookup raises no second fault |
| WalkProgress.WalkEnds | core/load_store_unit.nsl:217-230 | every lookup that misses ends: the page then hits, or a page fault is raised, once as many clocks have passed without waiting for memory as a measure says |
| WalkProgress.WorkBounds | core/ptw.nsl:17-54 | that measure is 15 when the walk starts |
| WalkProgress.ReadNowhereFaults | core/load_store_unit.nsl:217-230 | a table read outside memory faults at once, idles the unit and not the walker |
| WalkProgress.WalkAccessFaultRepeats | core/load_store_unit.nsl:299-305 | from then on, with the real cache and any memory behaviour, every clock in which nothing is asked raises another load access fault |
| WalkProgress.WalkerIdleExactly | core/load_store_unit.nsl:217-230 | a walk leaves the walker idle if and only if no table it read was outside memory |
| Core.WaitingStep | core/rv32x_core.nsl:1103-1116 | a walk for the fetch unit is always for the page it is waiting for |
| Core.RunIsFlat | core/rv32x_core.nsl:1030-1116 | with fetches, fence.i and sfence.vma in between, the commands answered are still a run of flat byte memory |
| CoreUnit.Handshake.Clock | core/rv32x_core.nsl:1030-1066 | one clock of the done flags, and when a fence retires |
| Fences.RetiresOnlyWhenFlushed | core/rv32x_core.nsl:1046-1066 | sfence.vma, arriving in any reachable state with its flags clear, cannot retire before the data TLB agrees with the tables now in memory and the fetch unit holds no TLB entry and no line |
| FetchTranslation.FetchesTranslateAsSpecified | core/ifetch_unit.nsl:54-98 | after any run, an sfence.vma, and a run that keeps satp and tables: each fetch asserted is looked up, translated if satp is on outside M mode; it gets the page section 4.3.2 grants it, exactly when the leaf is well formed; with its page in the TLB and the leaf well formed, it raises a page fault if and only if section 4.3.2 refuses it, and its lookup starts otherwise; with its page missing it is walked; a walk's faults are the load/store unit's, an access fault comes from nowhere else, and a page fault is for a page without a leaf, and is the asserted fetch's own if that is for the page walked; each word is delivered with the right tag of the page looked up |
| FetchTranslation.WalkIsServed | core/rv32x_core.nsl:1103-1116 | the idle load/store unit, asked nothing else, answers a waiting fetch unit from its TLB, which then holds the page, or starts the walk it waits for |
| FetchFaults.WalkFaultRightExactly | core/rv32x_core.nsl:884-893 | the fault at the end of a walk is the fault of the fetch then asserted, for all page tables with which it can be raised, if and only if translation is on and that fetch is for the page walked |
| FetchFaults.RedirectTakesFault | core/ifetch_unit.nsl:87-98 | from power-on: a fetch of an unmapped page, a redirect to any address at any privilege while its page is walked, and the page fault taken there, also where section 4.3.2 grants and in M mode |
| FetchTranslation.CommandsTranslateAsSpecified | core/rv32x_core.nsl:1046-1116 | since that sfence.vma, the commands the memory stage asserts are taken, fault or walk as section 4.3.2 says with satp on outside M mode, and are taken as they are otherwise, fetch walks in between included |
| IFetchUnit.Unit.Clock | core/ifetch_unit.nsl:54-165 | one clock of the fetch unit, its invalidation loop included |
| IFetchProof.UniqueStep | core/ifetch_unit.nsl:54-98 | whatever the walker answers, a clock leaves no two valid entries for one page and none for the page being walked |
| Core.InstructionTlbUnique | core/tlb.inc:42-59 | in every run from power-on, whatever happens to satp, page tables and memory, the instruction TLB holds no two valid entries for one page |
| IFetchProof.TlbStep | core/ifetch_unit.nsl:54-98 | while the walker's answers stay the same, each entry of the instruction TLB is its answer |
| IFetchProof.LinesStep | core/ifetch_unit.nsl:99-165 | every valid line stays the memory block of its tag and index, but for words stored to since |
| IFetchProof.Delivered | core/ifetch_unit.nsl:117-132 | a delivered word is the memory word at the latched tag and the current page offset |
| IFetchProof.EveryFetchRight | core/ifetch_unit.nsl:54-165 | in every run, redirected fetches included, each delivered word is the memory word at the latched tag, and the word asked for when that tag is the one wanted, as it is for the page looked up |
| IFetchProof.RightExactlyWithTag | core/ifetch_unit.nsl:99-132 | a delivered word is the one asked for, whatever memory its line came from, if and only if the latched tag is the one wanted |
| IFetchProof.RedirectFetchesOldPage | core/ifetch_unit.nsl:99-116 | a concrete run from an empty cache: a redirect to the same offset of any other page during the tag compare is answered from the old page |
| IFetchProgress.NeedFalls | core/ifetch_unit.nsl:54-165 | while a fetch is held without a fence, every clock that neither serves it nor waits for the walker or memory strictly lowers a measure, and a waiting one does not raise it |
| IFetchProgress.FetchEnds | core/ifetch_unit.nsl:54-165 | from any state whatever a held fetch is answered with a word or faults once as many clocks have passed without waiting as the measure says |
| IFetchProgress.NeedIsPositive | core/ifetch_unit.nsl:133-165 | which is at most 264 |
| Fences.ArrivesWithFlagsClear | core/rv32x_core.nsl:1030-1066 | from power-on, if each fence is asserted until it retires, the next one finds all done flags clear |
| Fences.FenceIStep | core/rv32x_core.nsl:1030-1042 | each clock of fence.i keeps the two done flags truthful: cache flushed, every line invalid |
| Fences.RetiresOnlyWhenSynced | core/rv32x_core.nsl:1030-1042 | fence.i, arriving in any reachable state with its flags clear, page walks and refills for the fetch unit included, cannot retire before memory is logical memory and no instruction-cache line is valid |
| FenceProgress.LeftFalls | core/rv32x_core.nsl:1030-1066 | with a fence in the memory stage, every clock in which neither port waits strictly lowers a measure of both units' work, and a waiting one does not raise it |
| FenceProgress.LeftBound | core/rv32x_core.nsl:1030-1066 | the measure is at most 2700 in every reachable state |
| FenceProgress.FencesRetire | core/rv32x_core.nsl:1030-1066 | fence.i and sfence.vma can retire, from any reachable state they arrive in with clear flags, once 2700 clocks have passed in which neither port waits |
| TwoPorts.WordRight | core/rv32x_core.nsl:1228-1260 | at every beat every word of memory is its old or its new value, but for word 0 of a block whose first beat memory has taken, which is what the write buffer held before |
| TwoPorts.WordTakenExactly | core/rv32x_core.nsl:1085-1102 | a word the fetch unit takes is right if and only if it is not stale, or was stored to, or the stale word equals the right one |
| TwoPorts.FirstBeatIsStale | core/rv32x_core.nsl:1228-1260 | if memory takes the first beat, word 0 is what the write buffer held before, until the last beat |
| TwoPorts.EveryDeliveryRight | core/rv32x_core.nsl:1085-1102 | data cache and fetch unit each over five beats: in every run without such a clash each word delivered is the reference word or was stored to since |
| TwoPortsClash.StaleWordFetched | core/rv32x_core.nsl:1085-1102 | a run from power-on: a store to one word of a block, an eviction, and a fetch of another word of it returns stale buffer data |
| TwoPortsClash.ClashIsExact | core/rv32x_core.nsl:1085-1102 | in any reachable state and any clock: every later delivery is right if and only if the fetch unit does not then take a wrong stale word |
| TwoPortsClash.RightExactlyWithoutClash | core/rv32x_core.nsl:1085-1102 | from power-on: if memory never lets the fetch unit take a stale word every run is right, and if it may, some run is not |
| FenceI.StepIs | core/rv32x_core.nsl:1030-1260 | a clock of the whole core over beats is one of the core over whole blocks |
| FenceI.FenceMakesStoresVisible | core/rv32x_core.nsl:1030-1042 | from power-on over five-beat ports: any run, fence.i, then any run whose clashes, if any, do no harm: every fetched word not stored to afterwards is what flat memory held after the commands answered before fence.i retired |
| FenceI.OrderedIsHarmless | core/rv32x_core.nsl:1085-1102 | a run in which memory keeps the fetch unit from stale words is one |
| FenceI.SinceSfence | core/rv32x_core.nsl:1046-1066 | from power-on over five-beat ports, any run, an sfence.vma and a run that keeps the tables leave both TLBs in agreement with them |
| FenceI.FetchedInstructionIsRight | core/rv32x5p.nsl:562-576 | after sfence.vma and fence.i, while tables stay: a delivered instruction not stored to since is flat memory's word at the page offset in the physical page section 4.3.2 grants, exactly when the leaf is well formed |
| Uart.SenderUnit.Clock | integration/uart_sender.nsl:28-76 | one clock of the sender |
| Uart.ReceiverUnit.Clock | integration/uart_receiver.nsl:22-104 | one clock of the receiver and its three-register synchroniser |
| UartLink.SampleInsideBit | integration/uart_receiver.nsl:63-84 | in every reachable state each data sample is the sender's bit of that index: the drift stays inside the bit for all eight |
| UartLink.StepConserves | integration/uart_sender.nsl:28-76 | no clock loses, duplicates or reorders a byte between queue, line and delivery |
| UartLink.EveryByteDelivered | integration/uart_receiver.nsl:36-104 | in every run, bytes delivered, then the one on the line, then those queued, are the bytes put in, in order |
| UartLink.DeliveredIsWhatWasSent | integration/uart_receiver.nsl:36-104 | from power-on what is delivered is a prefix of what was put in, and all of it once queue and line are empty |
| UartLink.TakesExactly | integration/uart_sender.nsl:28-34 | in every reachable state an idle sender takes the head of the queue if and only if it is enabled and there is one; otherwise it stays as it is and the line stays high |
| UartLink.FalseStart | integration/uart_receiver.nsl:42-62 | on any line, an idle enabled receiver that sees the line low is idle again 653 clocks later if and only if the line is high in the middle of the start bit, and has delivered nothing |
| UartLink.DisabledReceivesNothing | integration/uart_receiver.nsl:36-45 | a receiver that is not enabled starts no frame |
| UartLink.ByteTakes13047Clocks | integration/uart_sender.nsl:28-76 | an enabled sender delivers the head of its queue and is idle again 13047 clocks later |
| Fifo.FlagsExact | integration/fifo.inc:3-28 | empty and full mean exactly 0 and 255 elements |
| Fifo.StepIsQueue | integration/fifo.inc:9-28 | a clock with any mix of read and write takes from the front and adds at the back |
| Fifo.RunIsQueue | integration/fifo.inc:9-28 | in every run the values read, then those held, are those held at first, then those accepted: pointer wrap included |
| Fifo.Unit.Clock | integration/fifo.inc:3-28 | the ring in place is that queue |
| UartFifo.StepIsLink | integration/uart_sender.nsl:28-92 | a clock of sender, receiver and ring is a clock of the link over the ring's queue |
| UartFifo.DeliveredIsWhatWasAccepted | integration/uart_sender.nsl:28-92 | from power-on what the receiver delivers is a prefix of the writes the ring accepts, and all of them once ring and line are empty |
| UartFifo.DeliveredBytes | integration/uart_sender.nsl:28-92 | read back as bytes, what is delivered is a prefix of the bytes accepted |
| UartFifo.LeastSignificantFirst | integration/uart_sender.nsl:43-58 | the bits of a byte are sent from its least significant to its most significant |
| Divide.PartialStep | core/div32.nsl:37-53 | one shift-and-subtract keeps the dividend reconstructible from partial quotient, partial remainder below the divisor and the bits to come |
| Divide.LoopDivides | core/div32.nsl:37-53 | 32 steps give dividend = quotient * divisor + remainder with remainder below divisor |
| Divide.SignsMean | core/div32.nsl:23-53 | the sign fix-up turns unsigned quotient and remainder into the signed ones of section 7.2, -2^31 / -1 included |
| Divide.DivisionIsRight | core/div32.nsl:23-53 | for all operands the first answer is quotient and remainder of section 7.2 and leaves the unit idle: at once for a zero divisor, and otherwise after 33 clocks in which it says nothing, whatever is asserted meanwhile |
| Divide.Unit.Clock | core/div32.nsl:23-53 | one clock of the divider |
| MulDiv.ExtendedProduct | core/mul32.nsl:17-30 | the 64-bit wrapped product of the extended operands is the exact product modulo 2^64, for each pair of signednesses |
| MulDiv.MultiplicationIsRight | core/munit32.nsl:18-72 | for all operands MUL, MULH, MULHSU and MULHU give the half of the exact product section 7.1 asks for, in the third clock |
| MulDiv.DivisionIsRight | core/munit32.nsl:18-64 | for nonzero divisors DIV, DIVU, REM and REMU say nothing for 33 clocks and then return section 7.2's quotient, or remainder, from any idle state, whatever operation came before, and leave the unit idle |
| MulDiv.SilentUnlessAsked | core/munit32.nsl:18-76 | an idle unit that is not asked says nothing and stays as it is |
| MulDiv.ZeroDivisorUsesOldSelector | core/munit32.nsl:37-64 | for a zero divisor the previous operation decides which of the two results is returned |
| MulDiv.MulUnit.Clock | core/mul32.nsl:17-30 | one clock of the multiplier |
| MulDiv.MUnit.Clock | core/munit32.nsl:18-76 | one clock of the shared unit |
| CsrProof.StepKeeps | core/rv32x_core.nsl:318-1024 | every CSR write, trap and return keeps all copies of a bit equal and all fields legal |
| CsrProof.EveryRunConsistent | core/rv32x_core.nsl:318-1024 | from reset, in every run: mstatus, sstatus, ustatus agree, so do mie, sie, uie and mip, sip, uip; level and mpp are never 2, vector modes stay below 2, bits that cannot be delegated stay 0, sstatus.mprv stays 0 |
| CsrProof.TrapsAndReturns | core/rv32x_core.nsl:937-1024 | every trap has a defined vector and every return leaves mprv clear |
| CsrProof.MachineTripRestores | core/rv32x_core.nsl:937-1024 | a trap to M and its mret restore level, mie and the S state, and mret goes to the trapped PC with low bits clear |
| CsrProof.TripsRestore | core/rv32x_core.nsl:937-1024 | so do any number of them |
| CsrProof.SupervisorTripRestores | core/rv32x_core.nsl:948-1024 | a trap to S, any number of M-trap and mret pairs, then sret restore sie and the PC, and the level if and only if it was not M |
| CsrProof.SupervisorViewIsRestriction | core/rv32x_core.nsl:242-306 | in every run S mode reads in sstatus what M mode reads in the same bits of mstatus |
| CsrSpec.WriteStores | core/rv32x_core.nsl:318-590 | for each register, bit by bit: a write from a level that may make it stores the bits written that are writable there, in every register that shows them, a reserved mpp or vector mode excepted and the low bits of mepc and sepc cleared; every other bit of every register, and the level, stays; a write from a lower level changes nothing |
| CsrSpec.OtherWritesChangeNothing | core/rv32x_core.nsl:318-590 | a write to another address changes none of them |
| CsrSpec.ReadReturns | core/rv32x_core.nsl:242-306 | a read from a level that may make it returns the register's bits, mip with the pending wires and a one at bit 10; from a lower level it is not mapped |
| CsrSpec.ReadAfterWrite | core/rv32x_core.nsl:242-590 | every bit a write stores in the register at its own address is read back |
| CsrSpec.TrapRecords | core/rv32x_core.nsl:974-1024 | a trap from any state leaves its cause in the cause register of its level, its PC in that level's epc (mepc for U), the level it came from in mpp or spp, the old enable in mpie, spie or upie and the enable clear, in every register that shows them, and changes no other bit |
| CsrSpec.TrapGoes | core/rv32x_core.nsl:974-1024 | as numbers: to its level's vector register without the low two bits, plus, for an interrupt when bit 0 is set, four times its code |
| CsrSpec.ReturnsRestore | core/rv32x_core.nsl:937-973 | a return goes to the stacked level, restores the enable from its stacked copy and sets that, and changes no other bit but mprv and, for mret, mpp, which is M afterwards |
| CsrUnit.Unit.ClockWrite | core/rv32x_core.nsl:318-590 | a CSR write in place: which registers change and which copies with them |
| CsrUnit.Unit.ClockTrap | core/rv32x_core.nsl:974-1024 | a trap in place, and where it goes |
| CsrUnit.Unit.ClockMret | core/rv32x_core.nsl:937-947 | mret in place, and where it goes |
| CsrUnit.Unit.ClockSret | core/rv32x_core.nsl:948-959 | sret in place, and where it goes |
| CsrUnit.Unit.ClockUret | core/rv32x_core.nsl:960-973 | uret in place, and where it goes |
| Btb.CounterSaturates | core/btb.nsl:59-71 | the state of an entry counts taken and not taken between 0 and 3 |
| Btb.Unit.ClockPredict | core/btb.nsl:34-45 | what the buffer predicts for a PC |
| Btb.Unit.ClockUpdate | core/btb.nsl:46-71 | a misprediction changes one entry; a flush in the same clock wins |
| Btb.Unit.ClockFlush | core/btb.nsl:72-79 | a flush empties all 32 entries |
| FrontEndProof.ComparisonsAreRight | core/rv32x5p.nsl:481-494 | the decoder's compare function and the ALU flags decide all six branch conditions as section 2.5 defines them |
| FrontEndProof.FetchKeeps | core/rv32x5p.nsl:57-90 | a fetch extends the predicted path; a prediction of taken is only made where it is the branch's real target or can do no harm |
| FrontEndProof.CoreTarget | core/inst_dec.nsl:28 | from an even base a register jump goes where RV32I goes; from an odd one the core's sum is odd, whatever the immediate |
| FrontEndProof.ResolutionIsRight | core/rv32x5p.nsl:381-443 | for every prediction and outcome the path fetched next starts at RV32I's next PC, if and only if the instruction is not a register jump from an odd base to an aligned target (or the trap vector happens to be that target) |
| FrontEndProof.OddBaseTraps | core/inst_dec.nsl:28 | base 1 with immediate 4 traps where RV32I goes to 4; base 0 with immediate 5 goes to 4 in both |
| FrontEndProof.ExecutesTheIsaPath | core/rv32x5p.nsl:381-494 | from a flushed buffer, for every program, operands, run-ahead of fetches, fences, and traps and returns to code that contradicts no prediction then in the buffer, the PCs executed are RV32I's, refused register jumps apart |
| FrontEndProof.PredictedTakenIsABranch | core/btb.nsl:34-71 | in every run from a flushed buffer in which code changes at fences only, every PC the buffer predicts taken, and every one in flight, is a branch, and the predicted PC is its real target |
| FrontEndProof.RedirectRightExactly | core/rv32x5p.nsl:55-58 | after a trap or return to other code every path is RV32I's, wherever it goes and whatever follows, if and only if each predicting entry is for a branch of that code with its real target, or for an instruction whose prediction does no harm |
| FrontEndProof.StalePredictionAfterTrap | core/rv32x5p.nsl:440-447 | from reset, a loop run three times and then a trap to straight code at the same PC: the core executes 4, 4 where RV32I executes 4, 8 |
| FrontEndProof.OneMispredictionWithdraws | core/btb.nsl:59-71 | in every run a branch wrongly predicted taken is predicted not taken next time; one wrongly predicted not taken only if it was mispredicted just before |
| FrontEndUnit.Unit.ClockFetch | core/rv32x5p.nsl:57-90 | a fetch in place |
| FrontEndUnit.Unit.ClockExecute | core/rv32x5p.nsl:381-494 | the execute stage's choice of next PC and its update of the buffer, in place; a register jump adds the immediate with bit 0 cleared |

## Left out

- Pipeline timing and operand forwarding: each executed instruction, trap and return is one event with free operands; stalls and bubbles only delay events.
- fence (not fence.i) refetches from the memory stage while younger instructions are in flight (`core/rv32x5p.nsl:562-620`); whether they run twice is a question of pipeline timing.
- Fetches while a fence waits: the results assume that none is issued once the fetch unit has been emptied and before fence.i or sfence.vma retires, as the pipeline arranges by ending the fetch stage (`core/rv32x5p.nsl:562-576`).
- Plain assumptions about the memory port: it commits a write, and drives read data, in the clock it is ready; a non-cacheable read returns its value zero-extended; data index 4 of a four-entry buffer wraps to 0 as the beat address does.
- Physical memory attributes: an arbitrary fixed choice per block of absent, cacheable or not; the address decoders that produce it in the system are not modelled.
- Addresses above 32 bits: page-table addresses are 34 bits in the standard; the bus takes the low 32, and the results are modulo 2^32.
- TLB hits on several entries: the model drives the first; LoadStoreTranslation.DuplicatesAgree and IFetchProof.TlbStep show that it makes no difference.
- LoadStoreResults.LoadStoreUnitIsAtomic: assumes aligned accesses and page tables in existing memory, because the core checks the first before the unit is asked and the second fails as WalkAccessFaultRepeats shows.
- MulDiv.DivisionIsRight: cancelling a division or multiplication half way is left out, and it does not promise a result for zero divisors, which ZeroDivisorUsesOldSelector shows to be wrong in the code; Divide.DivisionIsRight covers them for the divider itself.
- UartLink.EveryByteDelivered: a byte counts as delivered in the clock the receiver writes it to its own buffer; the receiver's count of held bytes is not modelled.
- UartLink.EveryByteDelivered: takes the receiver's sample period as 162, the integer quotient of 1302 and 8.
- CsrProof.StepKeeps: covers status, interrupt enable and pending, vector, return address, cause and delegation registers. Scratch, trap value, counter, identity and satp writes change none of these.
- CSR immediate writes pass data merged from the old value (`core/rv32x_core.nsl:308-316`): any data is allowed in a write event, so these are included but not compared with the standard.
- Which interrupt is taken when, supervisor interrupts under delegation, and the delegation of exceptions: traps are free events.
- Writes of pending bits by the interrupt controllers; the wires they drive into reads of mip are free inputs.
- Decoding of instruction words: instructions arrive decoded, with the immediate sign-extended; what the decoder does to a register jump's immediate is modelled.
- FrontEndProof.ExecutesTheIsaPath: code is taken to change only where a fence, trap or return lets it; stores to instructions without fence.i are left out.
- TwoPortsClash.RightExactlyWithoutClash: its failing run drives the data cache directly; the load/store unit adds a clock to each access.
- sfence.vma with mstatus.tvm set in S mode, which traps (`core/rv32x_core.nsl:1047-1048`), and its address and ASID operands, which the core ignores.
- The 256-step loop of the fetch unit's invalidation takes its exit test and report in one clock more than its entries; how many clocks a loop header takes does not matter to any result.
- Interrupt controllers, timer, boot ROM, tightly coupled memory, storage device and debug port: not part of this model.
- Simulator, loader, bare-metal software and build scripts: I/O around the core.
