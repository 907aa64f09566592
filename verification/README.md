# Turtle_RV32: a verified model of the core

Turtle_RV32 is a clocked RV32IMAC core with M, S and U modes, Sv32 translation with a
TLB, PMP, precise traps and segmented RAM. This project models one clock cycle as two
phases: on the falling edge the execute stage computes its outputs from the registers, on
the rising edge every register takes its new value from the old ones. It proves what the
state machines that advance together on that edge amount to.

Where the source changes objects in place (PMP registers, TLB, RAM, fetch buffer, register
file, status registers, both MMU sides, the core as a whole) the model has classes whose
methods are proved against functions of the old state; the theorems are about those
functions and about runs of them.

## The main results

* **The pipeline is the sequential machine.** `Core.PipelineRefinesSequential`: from reset,
  for any program, interrupts and stalls, and any fetch side that tells the truth, the
  state of the pipeline (program counter, registers with write-back applied, status
  registers, PMP, memory) is at all times what the one-instruction-at-a-time machine
  `Sequential.Sem` reaches on the instructions completed so far. `Core.CycleRefines` says
  it for one cycle, from any state of the invariant.
* **The whole chip runs the program in memory.** `Chip.ChipRunsMemory` composes prefetch,
  both sides of the MMU, the one TLB they share, fetch buffer and decode with the pipeline:
  from reset or a full fence on, whichever side reaches the TLB first in each cycle, the
  machine state is what the sequential machine reaches, which decodes at every step the
  halfwords memory holds at its PC and walks the page tables at every access. Assumed is
  that the mapping in use stays and that no cycle writes what the fetch side holds or is
  fetching at that moment. `ChipStore.ResetStore` is such a run from reset with a store.
* **The parts of it.** `FetchSide.WholeRunsMemory` is the same with the TLB's answers taken
  as true, `Transparency.CacheIsInvisible` the same with the fetch side taken as arbitrary:
  the cache cannot be seen. `Steady` shows that stores beside the tables meet the hypotheses;
  `Tlb.HitsMatchWalks` says it of single hits.
* **The walk is Sv32, with the exact exceptions.** `Sv32.WalkIsReference`: on every
  page-table memory whose valid entries on the walk have 20-bit page numbers, the two-level
  walk gives the verdict and
  address of section 4.3.2 of the RISC-V Privileged Architecture v20211203 if and only if
  none of three listed situations occurs; `Sv32.WalkIsSafe`: it never grants more.
* **A memory instruction asks once, is answered within three edges, and commits once.**
* **The privilege stack** is sound in a run exactly when software is disciplined, and
  nested traps return where they left.
* **The fetch buffer** holds exactly memory, in every run, and names the first fault.
* **PMP**: the negate-and-mask test is the aligned power-of-two interval; the two-endpoint
  scan over the sparse index is the byte-by-byte scan; locks are permanent.
* **RAM** in lazily built segments is one flat byte array; SC.W of a running program stores
  exactly when an LR of the run covered its byte with no write since.
* **Decoding**: the 32-bit decoder undoes the encoder for all of RV32IMA, Zicsr and the
  privileged set; a compressed instruction has exactly the effect of its expansion; which
  words are refused is characterised for 16 and for 32 bits.
* **M unit**: both halves rebuild the exact product; quotient and remainder are the unique
  ones.
* **What the sequential machine is.** Every instruction's effect on it is stated in integers
  and binary digits, apart from the functions it shares with the pipeline: results, branches
  and jumps (`AluLaws`), loads, stores and atomics (`AccessLaws`, `MemoryLaws`), CSR
  instructions (`CsrLaws`), traps, returns and interrupts (`TrapLaws`), and the words it
  decodes (`CodeLaws`).

## Layout

| files | part |
|---|---|
| `Pmp`, `Hart`, `ExecSeq`, `Traps` | protection, status registers, traps; run-level properties |
| `Memory`, `Ram` | memory as the core sees it; the segmented RAM behind it |
| `Sv32`, `Tlb`, `Mmu`, `DataUnit`, `Immu`, `InstrUnit` | translation, its cache, and the two state machines |
| `Isa`, `Mext`, `Decode`, `Encode`, `Refusal`, `Rvc`, `RvcMeaning` | instructions, arithmetic, decoding, compression |
| `Exec`, `Sequential`, `Core`, `CoreTraps`, `Atomics`, `Machine`, `Transparency`, `Steady` | execute stage, reference machine, pipeline, objects, whole runs |
| `Bits` | words as numbers: sums, order, digits, shifts |
| `AluLaws`, `MemoryLaws`, `AccessLaws`, `CsrLaws`, `TrapLaws`, `CodeLaws` | the meaning of every instruction in numbers |
| `Fetch`, `Prefetch`, `FetchSide` | fetch buffer, fetch addresses, and the fetch side with the core |
| `Chip`, `ChipStore` | fetch side, core and shared cache together; a run of it with a store |

## Assumptions

* In `Core` the fetch side offers decode the instruction that the program, an arbitrary
  function of the architectural state, has at that point; by `Core.FetchExists` such a
  fetch side exists in every state. `FetchSide` and `Chip` discharge this for the program in
  memory.
* A TLB miss is an entry with V clear. `find` returns an entry whose `pte` was never
  assigned (src/tlb.hpp:13-16, 33), so the source leaves this to chance.
* In `Tlb`, `Transparency` and `Chip`: page tables and PMP stay as they are since the last full
  flush, so that each page's leaf does, while other memory is written freely; each key
  (bits 28..20 of satp, src/mmu.hpp:224) names one root while translation is on, and a leaf
  marked global is the same under every key.
* Data accesses go to RAM: device windows answer as `Memory` says for atomics and are
  otherwise read and written as memory.
* Interrupt wires and counter registers are inputs, arbitrary in every cycle.

## Where the code departs from its documentation or the architecture

Each is kept as the code has it and has its exact condition proved.

* LR requires the D bit, MXR opens nothing, and a pointer entry marked global faults
  (`Sv32.WalkIsReference`, `Sv32.LeafFaultIff`, examples in `Sv32.Departures` and
  `Sv32.LrDeparts`).
* A trap into M only ORs the privilege into MPP: it is recorded correctly exactly when no
  stale bit lies outside it (`Traps.TrapRecordsIff`, reachable by `Traps.StaleMppExample`).
* A delegated interrupt taken in U mode with SIE = 0 is handled in M
  (`Traps.DelegatedEntersSIff`, and `Traps.DelegatedToMExample`, a run from reset).
* MRET is accepted in every mode and SRET in U mode (`Exec.ReturnAcceptedIff`); with the
  privilege stack sound only SRET in U mode with SPP set gains by it
  (`Traps.ReturnRaisesIff`, and `Traps.SretRaisesExample`, a run from reset).
* SFENCE.VMA compares the address with page numbers, so a flush by an address removes the
  translation of that address only if it is 0 (`Tlb.SelectiveFlushIff`,
  `Tlb.SelectiveFlushMisses`), and the ASID with a key of seven ASID bits and two root bits,
  so a flush by an ASID misses its own entries unless the ASID is 0 or one of three odd
  cases (`Tlb.AsidFlushIff`), while address spaces that agree in those bits share entries
  (`Tlb.SharedKeyIff`).
* Loads are checked by PMP as four bytes whatever their size: a byte or halfword load is
  refused beyond what its own bytes call for exactly when a region splits the four bytes
  from its address (`Mmu.LoadReachableIff`, `Pmp.LastByteRefused`), never when the address
  is a multiple of four (`Pmp.AlignedNeverStraddles`).
* Undefined funct3 values of loads, stores and branches and undefined codes of the register
  group run as NOP, JALR takes any funct3, and right shifts any funct7; LR.W takes any rs2,
  SFENCE.VMA any rd, and ECALL, EBREAK, WFI, SRET and MRET any rd and rs1
  (`Refusal.RefusalIff32`).
* C.LUI with a zero immediate and C.SLLI with bit 12 set are executed although reserved
  (`Rvc.RefusalIff`).

## Model

| member | source | states |
|---|---|---|
| Pmp.NapotInterval | src/pmp.hpp:57-64 | for every 32-bit pmpaddr with k trailing ones and every address, the negate-and-mask test holds exactly on the aligned 2^(k+3)-byte interval (section 3.7.1) |
| Pmp.MaskValue | src/pmp.hpp:59-62 | the mask computed with 64-bit wrap-around is 2^64 - 2^(k+3) |
| Pmp.WordGranular | src/pmp.hpp:41-66 | every region (TOR, NA4, NAPOT) contains both or neither of two addresses in one aligned word |
| Pmp.TwoEndpoints | src/pmp.hpp:41-66 | for sizes 1 to 4, aligned or not, some byte lies in the region if and only if an end byte does, and all do if and only if both end bytes do |
| Pmp.CheckIsVerdict | src/pmp.hpp:33-74 | scanning entries by two endpoints gives the verdict of the byte-by-byte, lowest-entry-first scan of all 64 entries, whose regions, lock and permissions are read off the configuration byte as a number |
| Pmp.PermissionBits | src/pmp.hpp:70 | reading needs bit 0 or 1 of the configuration, writing bit 1, executing bit 2 |
| Pmp.AllowedIff | src/pmp.hpp:33-118 | below M mode an access passes if and only if the lowest entry that holds some byte of it has the bit it needs and holds all of it |
| Pmp.CheckBelowM | src/pmp.hpp:67-72 | the verdict is the same for U and S mode |
| Pmp.AlignedNeverStraddles | src/pmp.hpp:41-66 | a word-aligned load never straddles a region |
| Pmp.LastByteRefused | src/mmu.hpp:412-415 | a byte that is readable on its own and refused because three bytes behind it are not |
| Pmp.Unit.Check | src/pmp.hpp:33-118 | walking only the sparse index gives that verdict |
| Pmp.Unit.WriteAddr | src/pmp.hpp:120-133 | in-place address write: refused when the entry, or a following locked TOR entry, is locked; the index stays the set of nonzero entries |
| Pmp.Unit.WriteConfig | src/pmp.hpp:135-165 | four configuration bytes, each judged by the registers as they were before the write; the index stays the set of nonzero entries |
| Pmp.ConfigWriteLaw | src/pmp.hpp:135-165 | a configuration write puts byte k of its data into the k-th entry of its group, unless that entry, or a TOR entry above it, is locked |
| Pmp.AddrWriteLaw | src/pmp.hpp:120-133 | an address write takes effect under the same condition and touches nothing else |
| Pmp.LockKeptByStep | src/pmp.hpp:120-165 | one register write changes neither configuration, address nor TOR base of a locked entry |
| Pmp.LockPermanence | src/pmp.hpp:120-165 | no sequence of writes changes the permissions or the matched range of a locked entry |
| Pmp.VerdictFrozen | src/pmp.hpp:33-165 | if entries 0..k are locked and one of them decides an access, the verdict never changes again |
| ExecSeq.Unit.constructor | src/exec.hpp:60-96 | reset state |
| ExecSeq.Unit.Trap | src/exec.hpp:1157-1218 | in place: cause, saved PC, value, stacked status and new mode are those of the trap function |
| ExecSeq.Unit.Delegates | src/exec.hpp:1164-1178 | which mode handles a trap |
| ExecSeq.Unit.ReturnFromTrap | src/exec.hpp:1221-1264 | in place: MRET and SRET restore privilege and status as the return function says |
| ExecSeq.Unit.UpdateCsr | src/exec.hpp:1053-1113 | in place: the CSR update, including views, fixed registers and PMP registers |
| CsrLaws.CsrSem | src/exec.hpp:786-915 | CSRRW, CSRRS, CSRRC and their immediate forms: when they are legal, what `rd` gets, and bit by bit what the register becomes |
| CsrLaws.UpdateLaw | src/exec.hpp:977-1113 | after setting, a writable bit is set if and only if it was or the operand has it; after clearing, if it was and the operand lacks it; after writing it is the operand's; other bits and registers stay |
| CsrLaws.PmpUpdateLaw | src/exec.hpp:1053-1113 | in M mode a PMP register takes such a word through its guards |
| CsrLaws.FixedLaw | src/exec.hpp:1053-1113 | counters, fixed registers and hardwired zeros leave the state as it is |
| CsrLaws.ViewLaw | src/exec.hpp:800-907 | the bits read from mstatus, sstatus, mip, sip and sie |
| CsrLaws.PlainReadLaw | src/exec.hpp:800-907 | PMP configuration reads as four bytes, every other register as it is kept |
| ExecSeq.Unit.Edge | src/exec.hpp:1029-1113 | one edge is the step of the privilege machine |
| TrapLaws.ModeLaw | src/exec.hpp:1157-1178 | when a trap goes to S mode, from the bits of cause, delegation and status |
| TrapLaws.HandlerLaw | src/exec.hpp:359-408 | the handler: the vector of that mode, or its base plus four times the cause if the lowest bit is set |
| TrapLaws.TrapLaw | src/exec.hpp:1157-1218 | which registers a trap writes with what, and that nothing else changes |
| TrapLaws.STrapLaw | src/exec.hpp:1185-1196 | every bit of mstatus after a trap into S mode |
| TrapLaws.MTrapLaw | src/exec.hpp:1205-1214 | every bit of mstatus after a trap into M mode |
| TrapLaws.ReturnLaw | src/exec.hpp:1221-1264 | where a return goes, in which privilege, and that only status changes besides |
| TrapLaws.MretLaw | src/exec.hpp:1221-1243 | every bit of mstatus after MRET |
| TrapLaws.SretLaw | src/exec.hpp:1245-1264 | every bit of mstatus after SRET |
| TrapLaws.TakeableLaw | src/exec.hpp:1266-1283 | which interrupts may be taken, from the bits of mip, the wires, mie, mideleg and status |
| TrapLaws.TrappingSem | src/exec.hpp:733-752 | ECALL, EBREAK and undefined instructions trap with the architecture's causes and values |
| TrapLaws.FenceSem | src/exec.hpp:715-762 | SFENCE.VMA and WFI are refused in U mode, and in S mode under TVM or TW |
| TrapLaws.ReturnSem | src/exec.hpp:763-782 | SRET is refused in S mode under TSR only, MRET nowhere |
| Traps.StackStep | src/exec.hpp:1157-1264 | one step keeps "below M, MPP = 0 and MPRV = 0" if and only if it is disciplined |
| Traps.StackInvariant | src/exec.hpp:1029-1264 | from reset the privilege-stack invariant holds throughout a run if and only if the run is disciplined |
| Traps.TrapRecordsIff | src/exec.hpp:1205-1216 | a trap into M leaves MPP equal to the interrupted privilege if and only if MPP had no bit outside it |
| Traps.StaleMppExample | src/exec.hpp:1214 | a reachable state in which the recorded privilege is wrong |
| Traps.VisitReturns | src/exec.hpp:1157-1264 | a machine-mode excursion from S mode comes back to the instruction it left with the supervisor stack intact |
| Traps.NestedRoundTrip | src/exec.hpp:934-945 | an S trap, any number of M-trap/MRET pairs, and SRET with TSR clear restore privilege, SIE, MIE and PC |
| Traps.MipInvariant | src/exec.hpp:1065-1069 | in every run the stored pending bits stay within the write mask |
| Traps.InterruptChoice | src/exec.hpp:1266-1305 | the cause taken is the highest-priority enabled pending interrupt among the standard six, and one is taken whenever there is one |
| Traps.InterruptLevel | src/exec.hpp:1266-1283 | delegated interrupts are never taken in M or in S with SIE clear; others never in M with MIE clear |
| Traps.DelegatedEntersSIff | src/exec.hpp:1168-1172 | a delegated interrupt enters S mode if and only if SIE is set |
| Traps.DelegatedToMExample | src/exec.hpp:1170 | a disciplined run from reset ends in the case that lands in M |
| Traps.ReturnRaisesIff | src/exec.hpp:1221-1264 | with the privilege stack sound, a return raises the privilege if and only if it is SRET in U mode with SPP set |
| Traps.SretRaisesExample | src/exec.hpp:763-774 | a disciplined run from reset in which SRET takes U mode to S mode |
| Exec.ReturnAcceptedIff | src/exec.hpp:763-782 | the stage accepts MRET and SRET where the architecture does, and differs exactly for MRET below M and SRET in U mode |
| Traps.HandlerMatchesMode | src/exec.hpp:359-408 | the handler address is taken from the vector of the mode that is entered |
| Traps.NoNestedInterrupt | src/exec.hpp:1157-1305 | after a trap into a mode no interrupt for that mode is taken until a status write or return |
| Traps.MachineFrame | src/exec.hpp:786-1113 | over any U/S stretch mtvec, medeleg, mideleg, mscratch, all PMP registers and every mie bit outside mideleg are unchanged |
| CoreTraps.RunIsTrapRun | src/exec.hpp:1029-1113 | every run of the core is a run of the privilege machine, so its invariants hold of the core |
| CoreTraps.CoreStack | src/exec.hpp:1029-1264 | from reset a disciplined run of the core below M mode has MPP = 0, MPRV = 0, and pending bits within the mask |
| CoreTraps.IssuedIsSmall | src/decode.hpp:366-381 | no instruction that decode issues carries an interrupt cause |
| Memory.StoreThenLoad | src/memory.hpp:754-843 | a word read after a word store at the same address, wrap-around included, is the word stored |
| MemoryLaws.ReadNum | src/memory.hpp:640-720 | a read is the little-endian number of its bytes, addresses wrapping |
| MemoryLaws.WriteNum | src/memory.hpp:784-843 | a write puts the bytes of its data lowest first, drops their reservations and touches nothing else |
| MemoryLaws.StoreThenLoadNum | src/memory.hpp:640-843 | a byte, halfword or word read back after a store of that size is the low part of the data |
| MemoryLaws.AmoResultLaw | src/memory.hpp:128-154 | what each atomic operation computes: sums modulo 2^32, bitwise combinations, the smaller or larger operand in signed or unsigned order |
| Memory.ReservationHistory | src/memory.hpp:725-747 | in every history SC finds the byte reserved if and only if an LR covered it with no write to it since |
| Memory.CommitIsActs | src/memory.hpp:784-843 | what a request does to memory is a reservation, a write or nothing, as its kind says; what an atomic writes is `MemoryLaws.AmoResultLaw` |
| Atomics.RunMem | src/memory.hpp:784-843 | the memory a run leaves is its committed requests carried out in order |
| Atomics.CoreReservations | src/memory.hpp:725-747 | in every run of the core from reset a byte is reserved if and only if an LR of the run covered it with no write to it since |
| Atomics.ScStoresIff | src/memory.hpp:706-843 | SC.W of a running program stores and returns 0 if and only if its first byte is so reserved, else returns 1 and changes nothing |
| Ram.Ram.constructor | src/memory.hpp:508-533 | the first segment, all zero, agrees with an empty flat memory |
| Ram.Ram.BuildSeg | src/memory.hpp:526-533 | building a segment changes no byte and no reservation of the flat memory |
| Ram.Ram.Read | src/memory.hpp:538-550 | a read returns the flat byte, through the cached segment or not |
| Ram.Ram.Write | src/memory.hpp:551-563 | a write is one flat byte write and drops that byte's reservation |
| Ram.Ram.FetchWord | src/memory.hpp:564-581 | an aligned fetch is the little-endian word of the flat memory |
| Ram.Ram.AmoSc | src/memory.hpp:582-593 | SC fails exactly when the byte is not reserved |
| Ram.Ram.AmoLr | src/memory.hpp:594-606 | LR reserves exactly its byte |
| Sv32.WalkIsReference | src/mmu.hpp:311-389 | walk equals the section 4.3.2 algorithm if and only if the walk meets none of the listed departures; the algorithm reads entries by their binary digits and computes addresses from numbers |
| Sv32.Layout | src/mmu.hpp:230-236 | which binary digit of an entry each permission test of the code reads |
| Sv32.GrantLaw | src/mmu.hpp:360-372 | which digits the last entry of a walk must have for a load, a store and a fetch below M mode |
| Sv32.WalkIsSafe | src/mmu.hpp:311-389 | an address the walk yields is the one the architecture yields |
| Sv32.PlainWalkIsReference | src/mmu.hpp:311-389 | with MXR clear, LR aside and no global pointer the two agree on every access |
| Sv32.LeafFaultIff | src/mmu.hpp:228-236 | the leaf test equals the architecture's except where the code is stricter |
| Sv32.Departures | src/mmu.hpp:230-232 | a concrete entry for each departure |
| Sv32.LrDeparts | src/mmu.hpp:231-232 | a memory and an address where the walk faults on LR.W and the architecture grants it, under any PMP setting that lets the table be read (one is that of `Sv32.OpenAllows`) |
| Sv32.HitIsWalk | src/mmu.hpp:224-266 | using a true cached leaf gives the walk's verdict and address |
| Sv32.WalkFindsLeaf | src/mmu.hpp:337-389 | a walk that succeeds ended on the leaf of the tables |
| Sv32.MegaLeafShared | src/mmu.hpp:337-349 | a megapage leaf is the leaf of every page in its 4 MiB |
| Sv32.SameLeaf | src/mmu.hpp:311-389 | below M mode the leaf does not depend on who asks |
| Mmu.TranslateIsReference | src/mmu.hpp:178-396 | translation of a data access is the architecture's if and only if it does not depart |
| Mmu.LoadReachableIff | src/mmu.hpp:407-416 | a load of any size passes the protection check if and only if its own bytes do and no region splits the four bytes from its address |
| AccessLaws.PrivilegeLaw | src/mmu.hpp:212 | data accesses are made under MPP if MPRV is set, else under the current privilege |
| AccessLaws.TranslationLaw | src/mmu.hpp:218-220 | when data accesses and fetches are translated |
| AccessLaws.AskerLaw | src/mmu.hpp:230-236 | the walk is told the kind of request, the privilege, SUM and MXR |
| AccessLaws.ReachableLaw | src/mmu.hpp:405-417 | a data access passes the protection check if and only if the byte-by-byte verdict for reading or writing it does and its address is memory |
| AccessLaws.ExecutableLaw | src/mmu.hpp:634-646 | and a fetch if and only if executing its four bytes is allowed |
| AccessLaws.StoreNeedsWrite | src/mmu.hpp:405-417 | a store that goes through below M mode has the write bit of the lowest entry that holds some byte of it, and that entry holds all of it |
| AccessLaws.LoadNeedsRead | src/mmu.hpp:405-417 | a load has a read or write bit there, for four bytes |
| AccessLaws.FetchNeedsExecute | src/mmu.hpp:634-646 | a fetch has the execute bit there and delivers the little-endian word |
| AccessLaws.FaultLaw | src/mmu.hpp:134-177 | the causes of refused accesses: 13 and 15, 5 and 7, 4 and 6 for reads and the rest |
| AccessLaws.RefusedSem | src/exec.hpp:555-585 | a refused access traps with its cause and the virtual address |
| AccessLaws.LoadSem | src/exec.hpp:555-585 | a completed load leaves memory alone and puts the bytes at its physical address into `rd`, sign-extended for LB and LH |
| AccessLaws.StoreSem | src/exec.hpp:555-585 | a completed store puts the low bytes of rs2 at its physical address and touches no other byte |
| AccessLaws.AmoSem | src/memory.hpp:128-154 | a completed AMO puts the old word into `rd`, the result its name says into memory, and touches no other byte |
| AccessLaws.LrSem | src/memory.hpp:799-804 | LR reads the word and reserves its four bytes |
| AccessLaws.ScSem | src/memory.hpp:805-814 | SC stores and answers 0 if its first byte is reserved, else answers 1 and changes nothing |
| AccessLaws.DecodedShaped | src/decode.hpp:392-818 | the memory fields that decode gives each load, store and atomic |
| Immu.TranslateIsReference | src/mmu.hpp:470-627 | translation of a fetch is the architecture's if and only if it does not depart |
| Tlb.Unit.Find | src/tlb.hpp:31-53 | the first match, if any, and swaps it to the front |
| Tlb.Unit.Store | src/tlb.hpp:54-82 | new entry in front, the others shifted down to the slot it frees |
| Tlb.Unit.Flush | src/tlb.hpp:21-30 | exactly the matching entries lose their valid bit |
| Tlb.Transparent | src/tlb.hpp:21-82 | after any mix of searches, honest stores and flushes every hit is the leaf of the page tables |
| Tlb.RunTruth | src/tlb.hpp:21-82 | any mix of searches, honest stores and flushes from either side leaves only true leaves in the table |
| Tlb.HitsMatchWalks | src/tlb.hpp:31-53 | each hit in such a table gives the verdict and physical address of the full walk, whichever side filled the entry and whoever asks |
| Tlb.WalkStoresHonestly | src/mmu.hpp:337-389 | a walk that succeeds stores the leaf of the tables |
| Tlb.FullFlush | src/tlb.hpp:21-30 | after a full flush nothing hits |
| Tlb.SelectiveFlushIff | src/exec.hpp:727 | after any operations on an empty cache, a flush by an address removes the entry that translates it if and only if the address is 0 and the key matches |
| Tlb.SelectiveFlushMisses | src/tlb.hpp:21-30 | a page that a flush by its own address leaves cached |
| Tlb.AsidFlushIff | src/exec.hpp:727 | a flush by the ASID of satp removes the entries filled under it if and only if the ASID is 0 or one of three that happen to equal their key |
| Tlb.SharedKeyIff | src/mmu.hpp:224 | two satp values share their cached entries if and only if they agree in the low seven bits of the ASID and the top two of the root |
| Mmu.Launch | src/mmu.hpp:201-288 | an idle unit takes a request up at once, on the right page-table entry or address |
| Mmu.Advance | src/mmu.hpp:303-396 | until it answers, each edge keeps the request's meaning and lowers its rank |
| Mmu.Answer | src/mmu.hpp:134-177 | the answer is that of the access as one operation, and the edge that retires the instruction commits exactly its effect |
| Mmu.NoCommitYet | src/mmu.hpp:398-436 | before the answer memory is not touched |
| Mmu.IdleAfterDone | src/mmu.hpp:390-396 | after a successful answer the unit is idle |
| DataUnit.Unit.Edge | src/mmu.hpp:178-436 | in place: the data side's registers, the cache and the latched satp after one edge |
| DataUnit.LearnedIsLeaf | src/mmu.hpp:337-389 | what the data side puts into the cache during a walk is the leaf of the page tables |
| DataUnit.LearnedHonestly | src/mmu.hpp:337-389 | so each of its stores is an honest one under any privilege below M |
| Immu.Launch | src/mmu.hpp:498-556 | a ready fetch side starts on the next address |
| Immu.Advance | src/mmu.hpp:565-627 | each edge brings the fetch closer |
| Immu.AnswerCorrect | src/mmu.hpp:439-469 | the answer is that of the fetch as one operation |
| Immu.FetchCompletes | src/mmu.hpp:470-657 | from any point of a fetch the unit answers within its rank in edges, as the fetch as one operation does |
| Immu.FetchFromStart | src/mmu.hpp:470-657 | from the start, within three edges the unit answers with the word, page fault or access fault of the fetch as one operation |
| InstrUnit.Unit.Edge | src/mmu.hpp:470-657 | in place: the fetch side's registers, the cache and the latched satp after one edge without flush |
| InstrUnit.LearnedIsLeaf | src/mmu.hpp:570-621 | what the fetch side puts into the cache is the leaf of the page tables |
| InstrUnit.LearnedHonestly | src/mmu.hpp:570-621 | so each of its stores is an honest one |
| Exec.EffectPossible | src/exec.hpp:453-945 | the execute stage asks of the privilege machine only what it allows there |
| Exec.StallOrFlush | src/exec.hpp:927-974 | stall and flush are never both set, and a stalled stage has no effect |
| Core.ForwardCorrect | src/decode.hpp:405-410 | forwarded operands are the register file after all older instructions retire |
| Core.CycleRefines | src/exec.hpp:410-975 | a cycle is nothing, one interrupt or exactly one instruction of the sequential machine, and the invariant carries over |
| Core.PipelineRefinesSequential | src/exec.hpp:410-1113 | in every run from reset the pipeline's state is what the sequential machine reaches on the completed instructions |
| AluLaws.AluSem | src/exec.hpp:465-539 | what every integer instruction leaves in `rd`: sums modulo 2^32, signed and unsigned order, shifts as multiplication and floor division by powers of two, logic digit by digit; only `rd` and the PC change |
| AluLaws.MulDivSem | src/exec.hpp:540-554 | which result of the M unit each instruction takes |
| AluLaws.BranchSem | src/exec.hpp:620-708 | when each branch is taken and where it goes; an odd target traps |
| AluLaws.JumpSem | src/exec.hpp:586-619 | where JAL and JALR go and what they link |
| AluLaws.IdleSem | src/exec.hpp:713-716 | FENCE, FENCE.I and NOP only go on |
| CodeLaws.CodeLaw | src/fetch.hpp:39-223 | the instruction at a PC is decoded from the halfword memory delivers there, or from it and the next, low half first |
| CodeLaws.FetchFaultLaw | src/fetch.hpp:39-223 | a fault on a halfword of the instruction is its trap: 12 or 1, at that halfword's address |
| Core.FetchExists | src/decode.hpp:343-391 | for every program and state some truthful fetch side keeps the pipeline fed, so the refinement is not about nothing |
| Core.RequestOnce | src/exec.hpp:553-582 | a memory instruction asks in its first cycle only, and finds the MMU idle |
| Core.NotInterrupted | src/exec.hpp:445-450 | in its later cycles it cannot be interrupted |
| Core.AnsweredInRank | src/mmu.hpp:178-436 | it is neither interrupted nor flushed, and memory does not change, until it is answered after at most its rank in edges |
| Core.AnsweredWithinThree | src/mmu.hpp:178-436 | counted from the request, the answer comes within three edges |
| Core.LoadFinishes | src/exec.hpp:577-581 | a memory instruction finishes only once answered |
| Machine.RegisterFile.Edge | src/regfile.hpp:27-39 | in place: x0 is never written, the addressed register is |
| Machine.RegisterFile.constructor | src/regfile.hpp:18-26 | reset contents |
| Machine.Multiplier.Edge | src/mext.hpp:23-83 | in place: an answer exactly in the cycle after a request, with the right result |
| Machine.Machine.Decode | src/decode.hpp:343-391 | in place: the ID/EX register holds, takes the offered instruction with forwarded operands, or takes a bubble |
| Machine.Machine.Purge | src/exec.hpp:718-731 | a legal SFENCE.VMA flushes by the raw register values |
| Machine.Machine.RisingEdge | src/exec.hpp:1318-1341 | every object moves from its old value: together they are one step of the core |
| Machine.Machine.Cycle | src/exec.hpp:410-1113 | one clock cycle of all objects is `Core.Next` with the cache's own answer |
| Transparency.OfferIsTrue | src/mmu.hpp:224-266 | whatever the cache offers is the leaf of the page tables |
| Transparency.CacheStaysTrue | src/mmu.hpp:178-396 | a cycle of the core keeps every cached leaf true |
| Transparency.RunTruthful | src/mmu.hpp:178-396 | a run with the cache is a run of the core in which every hit was true |
| Transparency.CacheIsInvisible | src/tlb.hpp:21-82 | from reset or a full flush on, the core with its cache, also searched and filled by the fetch side in any order, computes what the sequential machine does |
| Steady.WriteKeepsLeaves | src/mmu.hpp:311-389 | a write beside every page-table word a walk can read leaves every leaf as it was |
| Steady.StoreSpares | src/memory.hpp:784-843 | a store that translation puts beside the tables is such a write |
| Steady.StoreFromStart | src/mmu.hpp:178-436 | every store beside the tables has a run of the core with its cache, from request to completion, through which the mapping stays fixed |
| Steady.ResetStore | src/exec.hpp:410-1113 | a run from reset that meets the hypotheses of `Transparency.CacheIsInvisible` and changes memory |
| Transparency.FenceEmpties | src/exec.hpp:718-731 | SFENCE.VMA with both operands zero leaves an empty cache and no walk under way |
| Fetch.AdvanceHolds | src/fetch.hpp:77-166 | one edge keeps the held halfwords equal to memory from the buffer address |
| Fetch.RunHolds | src/fetch.hpp:74-223 | in every run the buffer holds exactly memory from its address, and the front it presents is the halfword or two that memory has there |
| Fetch.FaultIsFirst | src/fetch.hpp:168-223 | a reported fault and its address name the first faulting halfword of the presented instruction |
| Fetch.Buffer.Append | src/fetch.hpp:109-146 | in place: OR-ing a word in at the index appends its halfwords and fault tags |
| Fetch.Buffer.Restart | src/fetch.hpp:91-108 | in place: reload at a new address, one halfword when the address is not word-aligned |
| Fetch.Buffer.Edge | src/fetch.hpp:74-166 | in place: shifts, loads and clears are the queue operations; bits above the index stay zero |
| Fetch.Buffer.Present | src/fetch.hpp:168-223 | in place: the instruction word and address outputs are those of the front, with its first fault and tval |
| Prefetch.AcceptIsConsumption | src/fetch.hpp:39-73 | accept equals actual consumption whenever reset and immu_flush are low |
| Prefetch.StepSynced | src/prefetch.hpp:23-40 | on a straight cycle the prefetch address stays the successor of the one being fetched |
| Prefetch.NoWordSkipped | src/prefetch.hpp:23-40 | in any run without redirection consumed words are at consecutive addresses |
| Prefetch.Resynced | src/prefetch.hpp:31-38 | after a redirection the first accepted word puts the addresses back in step |
| FetchSide.OfferedInstr | src/decode.hpp:361-381 | decode issues the instruction at the front of the buffer, whatever the unused half of a short word |
| FetchSide.NoFlushKeepsView | src/exec.hpp:786-915 | a cycle without flush changes nothing that a fetch looks at: privilege, satp, PMP |
| FetchSide.NpcEven | src/exec.hpp:927-974 | the next address is always even |
| FetchSide.SlotTrue | src/decode.hpp:343-381 | an instruction that decode accepts is the one memory holds at the new PC |
| FetchSide.ResponseHeld | src/memory.hpp:659-660 | memory answers a fetch only when the request changes: as long as it stays, reading the word anew gives the answer first given |
| FetchSide.StepGood | src/fetch.hpp:39-223 | a cycle of prefetch, instruction MMU, buffer, decode and core keeps the fetch side truthful and the core in step |
| FetchSide.WholeRunsMemory | src/cpu.hpp:69-190 | from reset, fetch side and core together compute what the sequential machine does when it decodes memory at its PC |
| Chip.FetchOpsAreCached | src/mmu.hpp:498-614 | the cache operations of the fetch side in the chip are those of its own edge |
| Chip.EdgeTrusted | src/mmu.hpp:174-657 | whatever the shared cache answers either side, in either order, is the leaf of the page tables |
| Chip.EdgeGood | src/cpu.hpp:69-190 | one edge of prefetch, both MMU sides, cache, buffer, decode and core keeps all of them right |
| Chip.ChipRunsMemory | src/cpu.hpp:69-190 | from a cold start fetch side, core and their one cache compute what the sequential machine does on the program in memory; nothing is assumed of cache answers or of the fetch side |
| Chip.ResetStarts | src/cpu.hpp:83-190 | reset is a cold start |
| Chip.FenceStarts | src/exec.hpp:715-730 | so is the state after a legal SFENCE.VMA with both operands zero |
| Chip.ChipScStoresIff | src/memory.hpp:706-843 | SC.W in the program the chip runs stores and returns 0 if and only if an LR of the run holds its first byte, else returns 1 and changes nothing |
| ChipStore.WriteSparesFetch | src/mmu.hpp:498-614 | a write apart from the page-table words and the word a fetch reads leaves the fetch as it was |
| ChipStore.WriteUndisturbed | src/fetch.hpp:39-223 | a cycle whose write is apart from all that the fetch side holds and fetches meets the hypothesis of the chip theorem |
| ChipStore.ResetStore | src/cpu.hpp:69-190 | a run of the chip from reset that fetches a store from memory, executes it, and meets every hypothesis of `Chip.ChipRunsMemory` |
| Prefetch.Register.Edge | src/prefetch.hpp:23-40 | in place: the prefetch register |
| Mext.UnsignedProduct | src/mext.hpp:44-47 | MULHU * 2^32 + MUL is the exact unsigned product |
| Mext.SignedProduct | src/mext.hpp:36-39 | signed MULH * 2^32 + MUL is the exact signed product |
| Mext.MixedProduct | src/mext.hpp:40-43 | signed MULHSU * 2^32 + MUL is the exact mixed product |
| Mext.LowHalf | src/mext.hpp:32-35 | MUL is the same however the operands are read |
| Mext.DivRem | src/mext.hpp:48-56 | q and r satisfy the division law with truncation toward zero if and only if they are DIV and REM |
| Mext.DivuRemu | src/mext.hpp:57-60 | the same for DIVU and REMU |
| Mext.SignedRestored | src/mext.hpp:48-69 | a = q*b + r mod 2^32 for all operands; zero divisor and overflow results |
| Mext.UnsignedRestored | src/mext.hpp:57-73 | the same unsigned |
| Decode.IssueTraps | src/decode.hpp:366-381 | fetch faults win, undecodable words always trap, any other trap is an illegal instruction |
| Refusal.NamedDecodes | src/decode.hpp:392-818 | a word with the fields of an instruction that decode tests decodes to that instruction |
| Refusal.RefusalIff32 | src/decode.hpp:392-818 | a 32-bit word traps if and only if it has the fixed fields of no instruction, zero fields included, and is in none of the nine lax families; no lax word is an instruction |
| Encode.DecodeEncode | src/decode.hpp:392-818 | for every instruction and operands that fit, decoding its encoding gives back type, registers, immediate and memory use |
| Encode.WordOfLong | src/decode.hpp:361-364 | every 32-bit encoding is recognised as one |
| Rvc.DecompressStands | src/decode.hpp:819-1304 | for every defined compressed encoding the decoder's record is that of the instruction it stands for; C.NOP has a record of its own for ADDI x0, x0, 0 |
| Rvc.RefusalIff | src/decode.hpp:819-1304 | a 16-bit encoding traps if and only if it is undefined and not in the two lax families |
| RvcMeaning.TwinsAgree | src/exec.hpp:453-924 | records with the same type, operands, destination and memory use do the same to the machine, whatever the instruction |
| RvcMeaning.RvcPreservesMeaning | src/decode.hpp:819-1304 | for every defined compressed encoding and every state, executing it equals executing its 32-bit expansion but for the +2 link and fall-through |

## Left out

- Devices (UART, PLIC, CLINT, test registers) and device dispatch in `Memory`: byte-register plumbing; their interrupt lines are inputs.
- mcycle, minstret and time, and their writes while an unrelated instruction names them: counters are inputs of the CSR read.
- The SystemC kernel, delta cycles and nanosecond waits: replaced by the two-phase step.
- Tracing, printing, ELF loading, the test bench and shared memory.
- Reset in mid-run: runs start in the reset state.
- Liveness of the fetch side: safety comes from decode's address filter; that a fetch answers within three edges is `Immu.FetchFromStart`.
- Writing a halfword while the fetch side holds it or is fetching it, before a FENCE.I.
- Page tables changed while they are cached without a flush: outside what Sv32 promises.
- Ram.Ram.Read: segments are values keyed by base address, so the cached segment pointer is modelled by its key and not as an alias of the stored vector.
- Ram.Ram.FetchWord: aligned fetches only, as the instruction side issues them.
- Pmp.TwoEndpoints: sizes above 4 are not covered; no access in the core is larger.
- Sv32.WalkIsReference: entries on the walk with page numbers above 20 bits, which name memory beyond the 32-bit space and which the code truncates.
- Machine.Machine.Cycle: composes the core with the data side; the fetch side's objects (`Fetch.Buffer`, `InstrUnit.Unit`, `Prefetch.Register`) are proved one by one and composed with the core on values in `FetchSide` and `Chip`.
- Transparency.CacheIsInvisible: the fetch side appears as arbitrary honest cache operations in every cycle; `Chip.ChipRunsMemory` puts in those it makes.
- FetchSide.WholeRunsMemory: that the cache answers both sides truly is a hypothesis here; `Chip.ChipRunsMemory` has the cache in the loop and drops it.
- Immu.Advance: flush cycles are not part of this unit; `FetchSide` adds them.
