# Verification of the BitVisor core of RansomTag's detection module

This project models the state-heavy parts of the hypervisor core and proves properties of
the models.  Each part is a small set of modules:

- **Shadow page tables, SPT_3** (`cpu_mmu_spt.c`): `Lists`, `LazyClear`, `Tables`,
  `ShadowCache`, `RwMap`, `BackRefs`, `Spt3`, `SptMap`, `SptUpper`, `SptFault`, `SptGrant`,
  `SptEntry`, `SptRuns`, `SptFlush`, `SptFresh`, `SptVcpu`, `SptGuest`, `SptCoherent`, `SptDirs`,
  `SptDirAgree`, `SptAgree`, `SptRegion`, `WordNums`, `SptSeen`, `SptSeen2`.  A machine of any number
  of vcpus, each with a cache of shadow page tables and directories (modified, normal and free lists,
  hash buckets), a reverse map of writable PTEs, back-references from page tables to PDEs, and lazily
  cleared pages.  The main results hold in every run: guest tables that are shadowed are writable
  through no vcpu; shadow page tables and directories agree with guest memory although the guest
  writes its tables wherever it can, so that the shadow walk of every address through normal tables
  is the guest's own walk, large pages included; no entry dangles; the internal panics are
  unreachable; and a fault installs what the guest's own tables allow, with CR0.WP set or clear.
- **Shadow page rings, SPT_2** (`cpu_mmu_spt.c`): `SptRing` on the ring seen from its first
  modified slot, `SptRingBuffer` on the array with modular indices.
- **Page allocator** (`mm.c`): `Pow2`, `Buddy`, `BuddyCont`, `BuddyKeeps`, `PageAllocator`.
- **Small and tiny tiers, sizes, realloc** (`mm.c`): `Sizing`, `Tiers`, `TierAlloc`, `TierRuns` on
  values, `TierRoom` on when alloc fails and what free accepts, `Bitmap` on 32-bit words, `TierHeap`
  in place on top of the page allocator.
- **Page-table cursor and guest walk** (`mm.c`, `cpu_mmu.c`): `Words`, `PageCursor`,
  `GuestWalk`, `GuestRights`, `GuestFault`, `GuestSeen`, `GuestWalk2`, `GuestSeen2`.  Words are sets of bit
  positions, so masks, merges and shifts are exact.
- **Memory types** (`cache.c`): `Bits`, `Mtrr`, `MtrrTypes`, `MtrrExact`.
- **MMIO index** (`mmio.c`): `MmioRange`, `Mmio`.
- **Processor barrier** (`ap.c`): `Barrier`.
- **AML parser state** (`acpi_dsdt.c`): `SharedStack`, `AmlParser`, `AmlMachine`.

Where the source updates structures in place, a class or a method with loops is proved equal to
a function on values, and the properties are lemmas about that function.  `dafny verify
dfyconfig.toml` checks everything.

Some properties one would expect turn out not to hold of the code; each has its exact condition,
and a concrete case or the whole family of failing cases:

- `makerdonly` compares addresses through a 36-bit mask (line 1889) while the rest uses the full
  address: `RwMap.ProtectExact`, `RwMap.HighFrameStaysWritable`.  The machine's invariants assume
  host frames below 2^36 bytes.
- `get_alloc_pages_size` multiplies in a 32-bit int: a request of 2 GiB up to 4 GiB gets one page
  (`Sizing.CoveredIff`, `Sizing.TwoGigabytesGetOnePage`; overflow taken as two's complement), and a
  `realloc` that grows to such a length copies more than that page holds (`Sizing.CopyFitsIff`,
  `Sizing.GrowthOverruns`).
- With two-level paging and CR4.PSE clear, `get_pte_sub` drops the PS bit only from its copy of
  the PDE and may trip the assertion in `pmap_write` (`GuestWalk.AssertIff`,
  `GuestWalk.AssertCase`).
- The reserved-bit table is stricter than sections 4.4 and 4.5 of the Intel SDM, volume 3A, on
  bit 8 of the entries above page directories (`GuestWalk.SucceedsIff`, `GuestWalk.Bit8Case`).
- `get_pte_sub` looks at the rights of a level before it reads the next, so a page that is not
  present below an entry that refuses the access is reported as a protection fault
  (`GuestFault.ErrorIff`, `GuestFault.EarlyRefusal`).
- With two-level paging it judges the address bits 36 to 39 of a 4 MiB page differently from section
  4.3 of the SDM (`GuestWalk2.LargeIff`, `GuestWalk2.WideCase`), and with CR4.PSE clear it may take a
  PDE with bit 7 for a 4 MiB page (`GuestWalk2.NoPseCase`).
- `mtrr_type_equal` is reliable only for masks without holes below the address width or without a
  bit below 32 (`MtrrExact.ReliableIff`, `Mtrr.HoleBreaksEqual`).
- `mmio_access_memory` refuses every access that ends at or past 2^64, touched or not
  (`Mmio.Index.Access`, `Mmio.TopAccessTouched`).
- A zero-length MMIO handle answers for every access (`MmioRange.ZeroLengthCatchesAll`); such
  registrations, and wrapping ones, leave the index outside its invariant (`Mmio.Index.Register`).
- `pmap_write` above the deepest level read keeps entries below that may no longer hang off the new
  one (`PageCursor.WriteFits`, `PageCursor.StaleAfterClear`).
- `update_rwmap` takes away the write access just given to a PTE that still waits on the fail list
  with the same frame (`SptGrant.UpdateExact`).
- A ring of a single shadow page reaches the fatal panic (`SptRing.FullMakesRoom`).

## Assumptions

- `gp2hp` is injective on frames that are not fake ROM, and host frames are below 2^36 bytes.
- Each locked SPT operation is one atomic step; the processor's own setting of A and D is a
  separate step.
- Shadow pages are named by slot numbers instead of physical addresses.
- The number of VMM pages is a multiple of twice the largest block.
- The guest writes its page tables only through a writable translation of some vcpu (no stale TLB
  entries, no DMA).
- List macros are as in `include/core/list.h`: ADD at the tail, PUSH and POP at the head, INSERT
  before the given node.
- Handlers do not change MMIO registrations during an access.
- Linear addresses have 32 bits below four paging levels; table addresses are below 2^48.

## Model

| member | source | states |
|---|---|---|
| SptRuns.ShadowedTablesAreReadOnly | 01.Detection modules/core/cpu_mmu_spt.c:1862-1908 | in every run over any number of vcpus, a present PTE of any vcpu that maps the host page of a guest table shadowed by a normal slot of any vcpu is not writable |
| SptRuns.NoDanglingEntries | 01.Detection modules/core/cpu_mmu_spt.c:1745-1771 | in every run every present PDE points at a shadow page table in use and has its back-reference |
| SptRuns.NoDanglingUpper | 01.Detection modules/core/cpu_mmu_spt.c:1728-1743 | in every run no reachable entry above the page directories points at a free shadow page directory, on every vcpu |
| SptAgree.TablesAgree | 01.Detection modules/core/cpu_mmu_spt.c:1862-1908 | in every run in which guest writes to page tables are steps too (possible only through a writable translation), every present PTE of a normal shadow page table has the address of the guest's entry as it is now or, in a table for a large page, of the frame at its place in that page; the user gets no right that the guest's entry does not give, and with CR0.WP=1 nobody does |
| SptAgree.DirectoriesAgree | 01.Detection modules/core/cpu_mmu_spt.c:2093-2224 | in every such run every present PDE of a normal shadow page directory points at the table whose key is that of the guest's directory entry as it is now (its table, or its large page, the right half of it for a 32-bit guest) or of the 2 MiB at its place in a page of 1 GiB, with no rights beyond that entry and the levels above it |
| SptRegion.RunsMatch | 01.Detection modules/core/cpu_mmu_spt.c:2093-2224 | in every such run the shadow walk of every address that goes through a normal directory and a normal table ends at the host frame where the guest's own tables lead now, with no more rights |
| SptRegion.RegionMatches | 01.Detection modules/core/cpu_mmu_spt.c:2093-2224 | after a fault at v every address of the same GiB whose shadow walk goes through a normal directory and table reaches the host frame of the guest's walk from the page directory of the fault, or its own frame in a large page of 1 GiB or without paging, within the rights of the levels above |
| SptAgree.StepInv | 01.Detection modules/core/cpu_mmu_spt.c:2093-2443 | every step of the VMM, every possible guest write and every setting of D by the guest walk keeps the invariant and the agreement of all vcpus |
| SptAgree.MapPageAgrees | 01.Detection modules/core/cpu_mmu_spt.c:2093-2224 | map_page, given what guest memory holds, keeps every normal shadow page table of every vcpu, those of large pages included, in agreement with guest memory |
| SptDirAgree.MapPageDirs | 01.Detection modules/core/cpu_mmu_spt.c:2093-2224 | map_page keeps every normal shadow page directory of every vcpu in agreement with guest memory, and the PDPE of the address then leads to the directory with the key of the fault |
| SptDirs.NewDirFaithful | 01.Detection modules/core/cpu_mmu_spt.c:2108-2171 | the keys that map_page computes: the table it links is that of the guest's directory entry, for large pages of 2 MiB, 4 MiB and 1 GiB, without paging, and for 32-bit guests; the directory's key bounds the rights by those above |
| SptDirs.SetPdeDirs | 01.Detection modules/core/cpu_mmu_spt.c:1952-2012 | setpde keeps the directories of all vcpus in agreement, also when a table slot is recycled for another key |
| SptDirs.SetPdpeDirs | 01.Detection modules/core/cpu_mmu_spt.c:2014-2064 | setpdpe keeps the directories of all vcpus in agreement, and the PDPE then leads to a directory with the key |
| SptSeen.FaultFits | 01.Detection modules/core/cpu_mmu_spt.c:2651-2703 | a fault that the guest's tables allow (PAE or four levels, at most 48 address bits) hands map_page what the words of guest memory hold after the walk: the entries' frames, rights and dirty bit, the first frame of a large page, and the place of the address in it |
| SptSeen2.FaultFits2 | 01.Detection modules/core/cpu_mmu_spt.c:2651-2703 | the same for two-level guests, 4 MiB pages with their address bits above 32 included, unless bit 7 of a PDE is set while CR4.PSE is clear |
| SptSeen.NoPagingFits | 01.Detection modules/core/cpu_mmu.c:170-180 | without paging it hands over the frame of the address itself, with all rights |
| GuestSeen.LoopSeen | 01.Detection modules/core/cpu_mmu.c:197-227 | every entry that the loop collects is in memory afterwards where the entry above it says, up to A and D bits added since, or made from a large page |
| SptCoherent.SetPdeFollows | 01.Detection modules/core/cpu_mmu_spt.c:1952-2012 | setpde gives no normal shadow page table an entry, and the table that the PDE then points at has the key of the fault or is not normal |
| SptRuns.ExecSound | 01.Detection modules/core/cpu_mmu_spt.c:2093-2224 | every run (boot, page fault, MOV CR3, INVLPG, clear all, TLB flush, MMIO unmapping, hardware setting A and D) keeps the machine invariant and panics only on an unknown level count or a guest write to VMM memory |
| SptRuns.NextSound | 01.Detection modules/core/cpu_mmu_spt.c:2093-2443 | each step keeps the invariant of all vcpus |
| SptRuns.UpdateCr3Sound | 01.Detection modules/core/cpu_mmu_spt.c:2371-2413 | update_cr3 adds no writable PTE and no protecting shadow and keeps the vcpu sound |
| SptRuns.ClearAllSound | 01.Detection modules/core/cpu_mmu_spt.c:2415-2437 | the same for clear_all |
| SptRuns.InvalidateSound | 01.Detection modules/core/cpu_mmu_spt.c:2333-2369 | the same for invalidate_page |
| SptRuns.FlushTlbSound | 01.Detection modules/core/cpu_mmu_spt.c:2439-2443 | the same for spt_tlbflush |
| SptFlush.UpdateCr3Empties | 01.Detection modules/core/cpu_mmu_spt.c:2371-2413 | after MOV CR3 the hardware finds no translation, exactly the modified shadows have become free, the fail list is empty and the new mode is in force |
| SptFlush.ClearAllEmpties | 01.Detection modules/core/cpu_mmu_spt.c:2415-2437 | after clear_all the hardware finds no translation and every shadow page is free |
| SptFlush.InvalidateClears | 01.Detection modules/core/cpu_mmu_spt.c:2333-2369 | INVLPG empties exactly the modified shadow pages |
| SptFlush.FlushTlbDrains | 01.Detection modules/core/cpu_mmu_spt.c:2439-2443 | spt_tlbflush empties the fail list and only takes rights away |
| SptRuns.UnmapRangeSound | 01.Detection modules/core/cpu_mmu_spt.c:2226-2262 | the same for extern_mapsearch on the current vcpu, after which no page table in use maps a frame of the range |
| SptRuns.UsePteSound | 01.Detection modules/core/cpu_mmu_spt.c:2205-2221 | the hardware's own setting of A and D keeps the vcpu sound |
| SptFault.MapPageSound | 01.Detection modules/core/cpu_mmu_spt.c:2093-2224 | map_page panics if and only if the level count is unknown or the guest writes VMM memory (so no mapsub, setpdpe or setpde panic), keeps the invariant of all vcpus, and leaves a walk of the shadow tables that reaches the host frame with the user and execute rights, and at most the write access, of the permissions passed and the memory type bits of the fault |
| SptFault.SetPteSound | 01.Detection modules/core/cpu_mmu_spt.c:2171-2224 | the last part of map_page writes the PTE, registers it and settles with every shadow of the frame |
| SptEntry.SetM2 | 01.Detection modules/core/cpu_mmu_spt.c:2607-2628 | m2[i] allows what all entries from level i up allow together; m2[0] also needs the dirty bit to allow writing |
| SptEntry.SetGfns | 01.Detection modules/core/cpu_mmu_spt.c:2630-2648 | gfns[i] is the frame of entry i, or none for a large page at levels 1 and 2 (GFN_GLOBAL and GFN_UNUSED, which every reader of SPT_3 treats alike) |
| SptEntry.FaultGrants | 01.Detection modules/core/cpu_mmu_spt.c:2651-2703 | with CR0.WP=1, right after map_page the shadow leads to gp2hp(gfns[0]), grants user access only if every guest level does, write only if every level is writable and the PTE dirty, and execution only if no level forbids it |
| SptEntry.PageFaultReaches | 01.Detection modules/core/cpu_mmu_spt.c:2651-2703 | from the fault to the mapping: the shadow leads to the host frame of the address that the hardware's own walk of the guest tables gives |
| SptEntry.PageFaultRights | 01.Detection modules/core/cpu_mmu_spt.c:2651-2703 | with CR0.WP=1, what the shadow grants right after the fault the guest's own tables grant: the walk of the SDM for the user, write and execute rights of the shadow translation succeeds |
| SptEntry.WriteFaultExact | 01.Detection modules/core/cpu_mmu_spt.c:2651-2703 | with CR0.WP=1 and nothing pending on the fail list, a write fault that is mapped can write if and only if every guest level is writable and the PTE dirty |
| SptEntry.NoWpTable | 01.Detection modules/core/cpu_mmu_spt.c:2141-2160 | the rows of the table for CR0.WP=0: which us and rw the shadow gets for the guest's us and rw and the kind of access |
| SptEntry.NoWpGrants | 01.Detection modules/core/cpu_mmu_spt.c:2141-2160 | with CR0.WP=0 the shadow lets the user in only if every guest level does, and lets the user write only if every level is also writable and the PTE dirty |
| SptEntry.NoWpServes | 01.Detection modules/core/cpu_mmu_spt.c:2141-2160 | with CR0.WP=0 and nothing pending on the fail list a write of the supervisor that is mapped can write |
| SptGrant.MapPageGrants | 01.Detection modules/core/cpu_mmu_spt.c:2093-2224 | with nothing pending on the fail list, a write fault that map_page serves can write iff the permissions passed for the page and its page table allow it |
| SptGrant.UpdateExact | 01.Detection modules/core/cpu_mmu_spt.c:1409-1456 | registering a PTE takes away the write access it was just given if and only if the same PTE with the same frame still waits on the fail list |
| SptUpper.MapsubSound | 01.Detection modules/core/cpu_mmu_spt.c:2066-2091 | mapsub keeps the vcpu sound and cannot fail after clearing all |
| SptUpper.SetPdpeSound | 01.Detection modules/core/cpu_mmu_spt.c:2014-2064 | setpdpe keeps all vcpus sound and tables protected; when it fails it leaves a free slot, and with a free slot it succeeds |
| SptUpper.LinkPdpeSound | 01.Detection modules/core/cpu_mmu_spt.c:2014-2064 | setpdpe on its own vcpu: the PDPE points at a directory in use whose entry is recorded, and only the new slot may have become protecting |
| SptMap.SetPdeSound | 01.Detection modules/core/cpu_mmu_spt.c:1952-2012 | setpde always succeeds, keeps all vcpus sound and tables protected, and the PDE points at a page table in use with the given rights |
| SptMap.LinkPdeSound | 01.Detection modules/core/cpu_mmu_spt.c:1952-1995 | setpde on its own vcpu, for a good PDE, a hit, and a new shadow |
| SptMap.NewShadow1Sound | 01.Detection modules/core/cpu_mmu_spt.c:1773-1816 | new_shadow1 always finds a slot (the POP after cleaning is never NULL), and only that slot became normal |
| SptMap.MakeRdOnlySound | 01.Detection modules/core/cpu_mmu_spt.c:1862-1908 | makerdonly over all vcpus: when it reports success no PTE of any vcpu maps the table's host page writable; it takes rights away and nothing else |
| SptMap.FinishProtected | 01.Detection modules/core/cpu_mmu_spt.c:1996-2012 | a new shadow is either write-protected on every vcpu or marked modified |
| SptFresh.FinishNormal | 01.Detection modules/core/cpu_mmu_spt.c:1996-2012 | a new shadow ends up normal if and only if the fault does not write the guest's table itself and no other vcpu has a dirty translation to that table |
| SptFresh.MakeRdOnlyOk | 01.Detection modules/core/cpu_mmu_spt.c:1862-1908 | makerdonly reports failure if and only if the key is not that of a large page and another vcpu has a dirty registered translation to the table |
| SptFresh.NewTableNormal | 01.Detection modules/core/cpu_mmu_spt.c:1952-2012 | setpde for a key that no slot has: exactly when the table it links is write-protecting |
| SptFresh.NewDirNormal | 01.Detection modules/core/cpu_mmu_spt.c:2014-2064 | setpdpe likewise |
| Spt3.CleanFree1Sound | 01.Detection modules/core/cpu_mmu_spt.c:1745-1771 | clean_modified_shadow1 with freeflag frees exactly the modified slots after dropping every PDE that points at them |
| ShadowCache.FindExact | 01.Detection modules/core/cpu_mmu_spt.c:1558-1596 | the hash search finds the slot with the key if and only if one is in use |
| ShadowCache.MarkModifiedSound | 01.Detection modules/core/cpu_mmu_spt.c:1910-1928 | a normal slot becomes modified; lists, flag, buckets and uniqueness of keys are kept |
| ShadowCache.ReviveSound | 01.Detection modules/core/cpu_mmu_spt.c:1773-1792 | a modified slot found by key becomes normal and its page is clear |
| ShadowCache.InstallSound | 01.Detection modules/core/cpu_mmu_spt.c:1793-1816 | a free slot takes a new key and joins the normal list and its bucket |
| ShadowCache.FreeModsSound | 01.Detection modules/core/cpu_mmu_spt.c:1728-1743 | clean_modified_shadow2 with freeflag frees exactly the modified slots and clears their pages |
| ShadowCache.ClearModsSound | 01.Detection modules/core/cpu_mmu_spt.c:1728-1743 | without freeflag it clears the modified pages and moves nothing |
| ShadowCache.MakeRoomSound | 01.Detection modules/core/cpu_mmu_spt.c:1793-1806 | with no free slot there is always one to give up |
| ShadowCache.MarkAllSound | 01.Detection modules/core/cpu_mmu_spt.c:1458-1539 | update_shadow with needrw: exactly the normal shadows of the frame become modified |
| ShadowCache.AnyNormalExact | 01.Detection modules/core/cpu_mmu_spt.c:1458-1539 | update_shadow without needrw sees a normal shadow of the frame if and only if there is one |
| RwMap.UpdateSound | 01.Detection modules/core/cpu_mmu_spt.c:1409-1456 | update_rwmap registers the PTE just written in its bucket and loses no other registration, through draining, reuse of a stale slot and eviction |
| RwMap.DrainSound | 01.Detection modules/core/cpu_mmu_spt.c:1419-1428 | the drain empties the fail list, only takes rights away, and reports no change only if no PTE was touched |
| RwMap.NormalLeft | 01.Detection modules/core/cpu_mmu_spt.c:1438-1446 | the POP of rwmap_normal with an empty free list is never NULL |
| RwMap.ForgetSound | 01.Detection modules/core/cpu_mmu_spt.c:1522-1538 | update_shadow's read-only tail drops the slot of this PTE and takes its RW bit |
| RwMap.ProtectSound | 01.Detection modules/core/cpu_mmu_spt.c:1875-1906 | makerdonly on one vcpu, for host frames below 2^36: reported success means no writer of the page is left; on the current vcpu it always succeeds |
| RwMap.ProtectExact | 01.Detection modules/core/cpu_mmu_spt.c:1889-1889 | because of the 36-bit mask, the page is left without writers if and only if it lies below 2^36 or had none before |
| RwMap.HighFrameStaysWritable | 01.Detection modules/core/cpu_mmu_spt.c:1889-1889 | a concrete frame at 2^36 that stays writable |
| BackRefs.AddRefSound | 01.Detection modules/core/cpu_mmu_spt.c:1930-1950 | add_shadow1map records the PDE and no other PDE loses its record, even when the pool is recycled |
| BackRefs.DropRefsSound | 01.Detection modules/core/cpu_mmu_spt.c:1755-1762 | after the loop over shadow1map_ref no PDE points at the page |
| LazyClear.RecordSound | 01.Detection modules/core/cpu_mmu_spt.c:1541-1556 | update_clearinfo adds the entry to the record and forgets none |
| LazyClear.ClearedIsZero | 01.Detection modules/core/cpu_mmu_spt.c:1681-1726 | clearing from a record that covers the non-zero entries leaves all 512 entries zero |
| LazyClear.ClearShadow | 01.Detection modules/core/cpu_mmu_spt.c:1681-1726 | clear_shadow on the page in memory, by the offset list or the run scan, leaves a page that its record covers all zero, and the record empty |
| LazyClear.ClearRuns | 01.Detection modules/core/cpu_mmu_spt.c:1701-1721 | the nested run loops stay inside the page, terminate, and zero exactly the groups whose bit is set |
| SptVcpu.DrainLoop | 01.Detection modules/core/cpu_mmu_spt.c:1419-1428 | the drain loop computes Drain |
| SptVcpu.ProtectLoop | 01.Detection modules/core/cpu_mmu_spt.c:1878-1904 | the loop over the bucket in makerdonly computes Protect |
| SptVcpu.DropRefsLoop | 01.Detection modules/core/cpu_mmu_spt.c:1755-1762 | the loop over shadow1map_ref computes DropRefs |
| SptVcpu.SearchPte | 01.Detection modules/core/cpu_mmu_spt.c:1430-1437 | the bucket search finds the slot of the PTE |
| SptVcpu.AnyNormalLoop | 01.Detection modules/core/cpu_mmu_spt.c:1470-1487 | the read-only scan of update_shadow |
| SptVcpu.MarkFrameLoop | 01.Detection modules/core/cpu_mmu_spt.c:1470-1487 | the marking scan of update_shadow |
| SptVcpu.Vcpu.TlbFlush | 01.Detection modules/core/cpu_mmu_spt.c:2439-2443 | spt_tlbflush in place; the TLB is flushed exactly when the drain met a PTE that still held its frame, and otherwise no PTE was touched |
| SptVcpu.Vcpu.UpdateRwmap | 01.Detection modules/core/cpu_mmu_spt.c:1409-1456 | update_rwmap in place |
| SptVcpu.Vcpu.ProtectFrame | 01.Detection modules/core/cpu_mmu_spt.c:1875-1906 | makerdonly for one vcpu in place |
| SptVcpu.Vcpu.CleanModified1 | 01.Detection modules/core/cpu_mmu_spt.c:1745-1771 | clean_modified_shadow1 in place |
| SptVcpu.Vcpu.CleanModified2 | 01.Detection modules/core/cpu_mmu_spt.c:1728-1743 | clean_modified_shadow2 in place |
| SptVcpu.Vcpu.MovCr3 | 01.Detection modules/core/cpu_mmu_spt.c:2371-2413 | update_cr3 in place |
| SptVcpu.Vcpu.MapSearch | 01.Detection modules/core/cpu_mmu_spt.c:2226-2262 | extern_mapsearch over both lists: unmaps the range on the current vcpu, and on another one changes nothing and tells whether a page in use maps a frame of the range |
| SptVcpu.UpdateShadows | 01.Detection modules/core/cpu_mmu_spt.c:1458-1539 | update_shadow over all vcpus in place: marks on every vcpu, or searches and takes back the PTE of its own |
| SptRing.FindMoves | 01.Detection modules/core/cpu_mmu_spt.c:527-597 | find_shadow hits iff a normal slot has the key; the three swaps move exactly that slot to the young end of the normal region and leave the other regions' slots in them |
| SptRing.ReviveMoves | 01.Detection modules/core/cpu_mmu_spt.c:656-672 | a modified slot with the key leaves the modified region and joins the normal one; no other slot changes region |
| SptRing.TakeMoves | 01.Detection modules/core/cpu_mmu_spt.c:674-694 | the first free slot gets the key and becomes normal |
| SptRing.FullMakesRoom | 01.Detection modules/core/cpu_mmu_spt.c:675-687 | a full ring gives up the oldest normal slot and all modified ones; the fatal panic is reached if and only if the ring has one slot |
| SptRing.NextAttemptSucceeds | 01.Detection modules/core/cpu_mmu_spt.c:675-694 | the attempt after a full ring succeeds |
| SptRing.MarkModifiedMoves | 01.Detection modules/core/cpu_mmu_spt.c:795-817 | modified_shadow moves exactly that slot to the modified region |
| SptRing.FrameNotNormal | 01.Detection modules/core/cpu_mmu_spt.c:432-485 | update_shadow moves exactly the normal shadows of the frame to the modified region |
| SptRing.RunConserves | 01.Detection modules/core/cpu_mmu_spt.c:527-743 | in every run of a ring of two or more slots there is no panic, the regions stay in cyclic order with a free slot, every page stays in as many slots as before and no key is held twice |
| SptRingBuffer.Buffer.SearchSlots | 01.Detection modules/core/cpu_mmu_spt.c:533-540 | the modular search loop finds the first slot with the key |
| SptRingBuffer.Buffer.FindShadow | 01.Detection modules/core/cpu_mmu_spt.c:527-561 | find_shadow on the array with modular indices computes Find |
| SptRingBuffer.Buffer.MakeShadow | 01.Detection modules/core/cpu_mmu_spt.c:648-695 | new_shadow on the array computes NewShadow, including the full ring |
| SptRingBuffer.Buffer.CleanModified | 01.Detection modules/core/cpu_mmu_spt.c:608-646 | the clearing loop of clean_modified_shadow |
| SptRingBuffer.Buffer.ModifiedShadow | 01.Detection modules/core/cpu_mmu_spt.c:795-805 | modified_shadow on the array |
| SptRingBuffer.Buffer.UpdateShadow | 01.Detection modules/core/cpu_mmu_spt.c:442-462 | update_shadow on the array: with needrw the partition loop, without it the answer whether no normal slot shadows the frame |
| PageAllocator.RunInvariant | 01.Detection modules/core/mm.c:588-741 | after every run of alloc, alloc_cont and free with any arguments the assertions let through: pages are partitioned into aligned blocks, each free block is on exactly its list, no two buddies below the top order are both free, and a NOT_HEAD page stores the trailing zeros of its index |
| Buddy.SplitSound | 01.Detection modules/core/mm.c:588-602 | a split keeps the invariant although it does not set the upper half's order |
| Buddy.AllocSound | 01.Detection modules/core/mm.c:604-644 | mm_page_alloc takes exactly one aligned block of free pages |
| Buddy.AllocComplete | 01.Detection modules/core/mm.c:619-644 | it runs out of memory if and only if no aligned run of 2^n free pages exists |
| Buddy.Canonical | 01.Detection modules/core/mm.c:689-741 | two sound states with the same free pages have the same free blocks |
| Buddy.FreeSubEffect | 01.Detection modules/core/mm.c:689-741 | freeing a page that does not head a two-part block gives back exactly the block's pages, or is refused without effect |
| Buddy.FreeSubInv | 01.Detection modules/core/mm.c:689-741 | freeing any page number whatsoever keeps the invariant |
| Buddy.AllocFree | 01.Detection modules/core/mm.c:604-741 | allocating and freeing restores the same free blocks |
| BuddyCont.AllocContSound | 01.Detection modules/core/mm.c:646-687 | mm_page_alloc_cont (n, m) with m <= n takes 2^n pages at an address aligned to 2^(n+1) and the 2^m pages after them |
| BuddyCont.SearchAbove | 01.Detection modules/core/mm.c:658-667 | with m > n, which the assertions let through, the search for a pair finds what it finds for (n, n) |
| BuddyCont.ClaimAbove | 01.Detection modules/core/mm.c:680-682 | ... and the second block is as large as for (n, n), so the call does what (n, n) does |
| BuddyCont.AllocContComplete | 01.Detection modules/core/mm.c:646-687 | it runs out of memory if and only if no such run of free pages exists |
| BuddyCont.FreeCont | 01.Detection modules/core/mm.c:689-741 | freeing a two-part block gives back exactly its pages |
| BuddyCont.AllocContFree | 01.Detection modules/core/mm.c:646-741 | allocating and freeing a two-part block restores the same free blocks |
| BuddyKeeps.AllocSame | 01.Detection modules/core/mm.c:619-644 | mm_page_alloc puts exactly one new block in use and touches no other |
| BuddyKeeps.AllocContSame | 01.Detection modules/core/mm.c:646-687 | mm_page_alloc_cont puts exactly two new blocks in use, the two parts of the allocation, and touches no other |
| BuddyKeeps.FreeContSame | 01.Detection modules/core/mm.c:689-741 | freeing a two-part block takes exactly its two blocks out of use |
| PageAllocator.Allocator.AllocPages | 01.Detection modules/core/mm.c:619-644 | mm_page_alloc in place |
| PageAllocator.Allocator.AllocContPages | 01.Detection modules/core/mm.c:646-687 | mm_page_alloc_cont in place, for every pair of orders (a second order above the first is cut to the first) |
| PageAllocator.Allocator.FreePages | 01.Detection modules/core/mm.c:689-741 | mm_page_free_sub in place |
| Sizing.PagesBound | 01.Detection modules/core/mm.c:1042-1063 | below 2^19 pages a request is refused iff it is over 6144 pages, and otherwise covered by less than 4/3 of it |
| Sizing.ChooseLeast | 01.Detection modules/core/mm.c:1042-1063 | the choice is the least sum of one or two blocks that covers the request |
| Sizing.CoveredIff | 01.Detection modules/core/mm.c:1045-1045 | the size is a 32-bit int: an accepted request of any number of pages is covered if and only if it is below 2^19 pages |
| Sizing.TwoGigabytesGetOnePage | 01.Detection modules/core/mm.c:1045-1045 | every request of 2 GiB up to 4 GiB gets a single page |
| Sizing.GetAllocPagesSize | 01.Detection modules/core/mm.c:1042-1063 | the two loops compute the choice |
| Sizing.GetSmallAllocsize | 01.Detection modules/core/mm.c:1096-1103 | the least small size that holds len bytes |
| Sizing.Enough | 01.Detection modules/core/mm.c:1341-1360 | up to the maximum the actual size is at least what was asked for |
| Sizing.Monotone | 01.Detection modules/core/mm.c:1341-1360 | get_actual_allocate_size is monotone |
| Sizing.Idempotent | 01.Detection modules/core/mm.c:1341-1360 | asking for the size that an accepted request got gives that size |
| Sizing.ReallocSafe | 01.Detection modules/core/mm.c:1364-1400 | for every length an allocation can have and every new length: the assertion in realloc holds, a kept allocation is large enough and has the size asked for, and what is copied lies in the old one |
| Sizing.CopyFitsIff | 01.Detection modules/core/mm.c:1381-1399 | what realloc copies fits into the new allocation if and only if the new length is within the maximum (below 2 GiB) or the old one is at most a page |
| Sizing.GrowthOverruns | 01.Detection modules/core/mm.c:1381-1388 | growing 8 KiB to 2 GiB copies 8 KiB into a single page |
| Tiers.LiveDisjoint | 01.Detection modules/core/mm.c:1105-1261 | any two live allocations of the page, small and tiny tiers occupy disjoint bytes |
| Tiers.SmallAllocSound | 01.Detection modules/core/mm.c:1105-1138 | small_alloc, when it succeeds, takes one block that was not in use and keeps lists and bitmaps right; when it fails is in TierRoom.SmallRunsOut |
| TierRoom.SmallRunsOut | 01.Detection modules/core/mm.c:1105-1138 | small_alloc fails if and only if every page of the size is full and no page is free; it takes a new page if and only if every page of the size is full |
| Tiers.SmallFreeSound | 01.Detection modules/core/mm.c:1150-1177 | small_free gives that block back, and the page with its last block |
| Tiers.TinyAllocSound | 01.Detection modules/core/mm.c:1188-1221 | tiny_alloc makes exactly one new piece live |
| TierRoom.TinyRunsOut | 01.Detection modules/core/mm.c:1188-1231 | tiny_alloc fails if and only if every block of the size is full and no block of its parent size can be had; it takes a new block if and only if every block of the size is full |
| Tiers.TinyFreeSound | 01.Detection modules/core/mm.c:1233-1261 | tiny_free removes exactly that piece, and the block with its last piece |
| TierAlloc.AllocBytesSound | 01.Detection modules/core/mm.c:1264-1279 | alloc, when it succeeds, makes exactly one new allocation live, of the size get_actual_allocate_size gives; all others keep first byte and length; when it fails is in TierRoom.RunsOutIff |
| TierRoom.RunsOutIff | 01.Detection modules/core/mm.c:1264-1279 | alloc runs out of memory if and only if, for a small size, no page of the least size that fits has a free block and no page is free; for a tiny size, no block has a free piece and no parent block can be had; for pages, the size is refused or no aligned run of free pages has it |
| TierAlloc.ClassifyExact | 01.Detection modules/core/mm.c:1299-1316 | free finds tier, block and piece of every live pointer from the page type and the offset in the block |
| TierAlloc.FreeExact | 01.Detection modules/core/mm.c:1299-1316 | freeing a live allocation removes exactly it; all others keep first byte and length |
| TierRoom.AcceptedIff | 01.Detection modules/core/mm.c:1299-1316 | free accepts the addresses of blocks and pieces in use and every address in the first page of an allocated or reserved block of pages; any other address is a panic, a second free included |
| TierAlloc.FreePair | 01.Detection modules/core/mm.c:1299-1316 | freeing a two-part allocation removes exactly its two blocks; all others keep first byte and length |
| TierRuns.RunSafe | 01.Detection modules/core/mm.c:1264-1400 | after every run of alloc, free and realloc from boot, for every pointer that is held: get_alloc_len is get_actual_allocate_size of the last request, free finds tier, block and piece and succeeds, realloc to any length does not fail its assertion, and no two allocations share a byte, two-part ones included |
| TierRuns.RunKeeps | 01.Detection modules/core/mm.c:1264-1400 | while no call names it, a pointer stays where it is with the same length through any run |
| TierRuns.RunLists | 01.Detection modules/core/mm.c:1105-1261 | after every run a small page or tiny block is on the free list of its size iff it is not full, and none is empty |
| TierRuns.AllocWhole | 01.Detection modules/core/mm.c:1264-1279 | alloc, when it succeeds, returns the pointer of a whole new allocation whose length is the actual size, and ends no other |
| TierRuns.FreeWhole | 01.Detection modules/core/mm.c:1299-1316 | free of the pointer of an allocation, of one or two parts, succeeds and ends the life of exactly its parts |
| TierRuns.ReallocKeeps | 01.Detection modules/core/mm.c:1364-1400 | realloc exchanges the pointer for one with the new length, never fails its assertion and disturbs no other pointer |
| Bitmap.NextBitIs | 01.Detection modules/core/mm.c:61-61 | FIND_NEXT_BIT (~b & (b + 1)) is the lowest clear bit alone, and 0 exactly for the full word |
| Bitmap.FullWordIs | 01.Detection modules/core/mm.c:1111-1111 | full, computed as (2U << (nbits - 1)) - 1 in 32 bits, is the word of nbits ones, also for 32 |
| Bitmap.XorFlips | 01.Detection modules/core/mm.c:1166-1167 | b ^ (1 << i) takes block i out of the set of blocks in use, or puts it in after a double free |
| TierHeap.TakeFirst | 01.Detection modules/core/mm.c:1116-1118 | on 32-bit words: the lowest free block of the bitmap is found and set, and the comparison with full tells whether the page is full |
| TierHeap.Manager.AllocVirt | 01.Detection modules/core/mm.c:1264-1279 | alloc on bitmaps and lists in place, on top of the page allocator object: the address returned is that of a whole new allocation of the actual size, nothing live is disturbed, and the invariant holds again; it fails if and only if there is no room, said of the used bits and the free pages |
| TierHeap.Manager.FreeVirt | 01.Detection modules/core/mm.c:1299-1316 | free on bitmaps and lists in place: every pointer of an allocation is accepted, exactly its parts stop being live, and the invariant holds again; anything else is accepted exactly as FreeBytes says |
| TierHeap.Manager.GiveSmall | 01.Detection modules/core/mm.c:1150-1177 | small_free with ^ and the double free test: it succeeds iff the block was in use, and then takes exactly that block out and keeps the invariant |
| TierHeap.Manager.GiveTiny | 01.Detection modules/core/mm.c:1233-1261 | tiny_free: it succeeds iff the piece is live and not the header's, then takes exactly that piece out, the block with the last one, and keeps the invariant |
| PageCursor.RunRefines | 01.Detection modules/core/mm.c:2065-2317 | after any run of seeks, reads, clears, and writes that keep the cursor right (WriteFits), seeking and reading gives what a freshly opened cursor gives, which is the walk of the tables in memory |
| PageCursor.SeekFits | 01.Detection modules/core/mm.c:2110-2129 | after pmap_seek the cursor is right for the new address, and of the entries it held it keeps exactly those that serve that address |
| PageCursor.ReadFits | 01.Detection modules/core/mm.c:2213-2270 | pmap_read returns the entry the tables in memory give |
| PageCursor.WriteFits | 01.Detection modules/core/mm.c:2272-2297 | at any level that the assertion allows, a write is what later walks find and an atomic one does not fail; the cursor stays right if and only if it is at the deepest level read or what was read below still hangs off the new entry; the cell then holds, bit by bit, the caller's address bits and masked attributes and the defaults of the level for the rest |
| PageCursor.StoredBits | 01.Detection modules/core/mm.c:2275-2285 | bit b of the entry written is the caller's for an address bit or a bit of the mask, else set iff it is RW, US or A outside a PDPTE of three levels, or D in a PTE |
| GuestWalk.PdpteClean | 01.Detection modules/core/cpu_mmu_spt.c:2040-2048 | a PDPTE of three levels that setpdpe writes with the mask of P alone has no reserved bit if the address has none |
| PageCursor.StaleAfterClear | 01.Detection modules/core/mm.c:2293-2296 | clearing an entry above the deepest level read leaves a stale entry in the cursor |
| PageCursor.ClearFits | 01.Detection modules/core/mm.c:2307-2317 | after pmap_clear every address finds an empty entry in the table |
| PageCursor.Split1GExact | 01.Detection modules/core/mm.c:2223-2232 | splitting a 1 GiB entry keeps address, PAT and all attributes for every address in it |
| PageCursor.Split2MExact | 01.Detection modules/core/mm.c:2233-2251 | splitting a 2 MiB entry keeps the address, moves the PAT bit and keeps all attributes |
| PageCursor.Split4MExact | 01.Detection modules/core/mm.c:2233-2251 | the same for a 4 MiB entry with address bits 32 to 39 |
| PageCursor.Pmap.SeekTo | 01.Detection modules/core/mm.c:2110-2129 | pmap_seek in place |
| PageCursor.Pmap.ReadEntry | 01.Detection modules/core/mm.c:2213-2270 | pmap_read in place |
| PageCursor.Pmap.WriteEntry | 01.Detection modules/core/mm.c:2272-2297 | pmap_write in place, at any level that the assertion allows; the cell holds the bits that StoredBits gives |
| PageCursor.Pmap.ClearTable | 01.Detection modules/core/mm.c:2307-2317 | pmap_clear in place |
| MmioRange.RangeCheckExact | 01.Detection modules/core/mmio.c:46-81 | rangecheck in 64-bit arithmetic on ranges that do not wrap: it hits iff the ranges meet and the handle is live, and gives their intersection |
| MmioRange.RangeCheckCircle | 01.Detection modules/core/mmio.c:46-81 | on all ranges of 1 to 2^32 - 1 bytes, wrapping ones included, it hits iff the handle is live and a byte is shared modulo 2^64, and its assertion never fires |
| MmioRange.ZeroLengthCatchesAll | 01.Detection modules/core/mmio.c:46-81 | a zero-length handle answers for every access, and the assertion fires iff its start is inside the access and not its first byte |
| MmioRange.ScanExact | 01.Detection modules/core/mmio.c:261-280 | scan visits exactly the buckets a range touches |
| Mmio.Index.Register | 01.Detection modules/core/mmio.c:282-314 | for every address and length: a range is registered iff rangecheck hits no handle; for proper ranges that is iff it meets no live one, handles stay disjoint and each bucket holds exactly the handles that reach into it, sorted; the index stays valid iff the range is refused or proper |
| Mmio.Index.Unregister | 01.Detection modules/core/mmio.c:329-344 | the handle leaves the list and every bucket |
| Mmio.Index.MarkUnregistered | 01.Detection modules/core/mmio.c:329-344 | a deferred unregistration only stops the handle from answering |
| Mmio.Index.Access | 01.Detection modules/core/mmio.c:100-195 | for every address and length: the result is 0 iff the length is 0, the access ends at or past 2^64 or no live range is touched; the panic is reached iff two different live unlocked ranges are touched; otherwise the pieces tile the access and each is served by its owner or directly, at its buffer offset, with at most one deferred |
| Mmio.TopAccessTouched | 01.Detection modules/core/mmio.c:136-137 | a touched access that ends at 2^64, which Access refuses because the end is 0 in 64 bits |
| Mmio.TilesOnce | 01.Detection modules/core/mmio.c:100-195 | in a tiling every byte is served exactly once |
| GuestWalk.MaskExact | 01.Detection modules/core/cpu_mmu.c:116-134 | the masks of the table, adjusted to the address width, are the reserved bits of the architecture |
| GuestWalk.GetPteAgrees | 01.Detection modules/core/cpu_mmu.c:159-244 | with PAE or four levels the walk agrees with the hardware walk: success, entries[0], memory with A and D exactly where the hardware sets them, and on failure the error that names why the first entry that stops the walk stops it (not present, reserved bit, no right, no execution); no made-up entry is written |
| GuestRights.RightsExact | 01.Detection modules/core/cpu_mmu.c:159-244 | with CR0.WP=1: after a walk that succeeds, a larger access (user, write or execution added) gets through the guest's tables as the SDM defines it if and only if every collected entry below the root allows it |
| GuestWalk.SucceedsIff | 01.Detection modules/core/cpu_mmu.c:159-244 | it succeeds iff the walk of the SDM does and bit 8 is clear in the PML4E and in a PDPTE that points at a directory; with bit 8 clear it names the cause at the first entry that stops the walk of the SDM, otherwise a reserved bit |
| GuestWalk.Bit8Case | 01.Detection modules/core/cpu_mmu.c:116-134 | a case: the SDM lets the access through and get_pte_sub does not |
| GuestFault.ErrorIff | 01.Detection modules/core/cpu_mmu_spt.c:2538-2568 | the page fault given to the guest has the error code of the SDM (P, RSVD and the bits of the access) if and only if no entry refuses the access above one that is not present or has a reserved bit, since the code checks rights before it reads the next level |
| GuestFault.EarlyRefusal | 01.Detection modules/core/cpu_mmu_spt.c:2670-2683 | a case: the SDM reports a page that is not present, the guest gets a protection fault |
| GuestWalk2.GetPteAgrees2 | 01.Detection modules/core/cpu_mmu.c:159-244 | with two levels, where the PDE maps no 4 MiB or does so with CR4.PSE and address bits that code and SDM judge alike, the walk agrees with 32-bit paging: result, error, entries[0] and memory |
| GuestWalk2.LargeIff | 01.Detection modules/core/cpu_mmu.c:116-134 | for a 4 MiB page the answer is that of the SDM if and only if the two agree on the address bits above 32, bit by bit of the PDE and for every address width |
| GuestWalk2.WideCase | 01.Detection modules/core/cpu_mmu.c:116-134 | a case: with 40 address bits the code refuses a 4 MiB page that the SDM allows |
| GuestWalk2.NoPseCase | 01.Detection modules/core/cpu_mmu.c:218-219 | a case: without CR4.PSE the code takes a PDE with bit 7 for a 4 MiB page |
| GuestWalk.AssertIff | 01.Detection modules/core/cpu_mmu.c:218-225 | the assertion in pmap_write fails iff paging has two levels, CR4.PSE is clear and a write meets a permitted PDE with PS and A set and D clear |
| GuestWalk.AssertCase | 01.Detection modules/core/cpu_mmu.c:218-225 | a case in which the assertion fails |
| GuestWalk.NoRetry | 01.Detection modules/core/cpu_mmu.c:224-225 | the write back of A and D fails only if the entry changed in between |
| GuestWalk.GetPteSub | 01.Detection modules/core/cpu_mmu.c:159-244 | the level loop computes the walk; with PAE or four levels its result, error included, is that of the hardware walk |
| Mtrr.EqualSound | 01.Detection modules/core/cache.c:143-195 | when mtrr_type_equal is true every address of the region has the same type, for all masks that have no hole below the address width or no bit below 32 |
| MtrrExact.ReliableIff | 01.Detection modules/core/cache.c:143-195 | the exact condition: the answer of mtrr_type_equal is right for all bases, types and default types and all aligned regions of 4 KiB to 4 GiB if and only if every valid slot's mask has no hole below the width or no bit below 32 |
| MtrrExact.SlotReliableIff | 01.Detection modules/core/cache.c:157-186 | the same for one slot: wherever the scan does not give up the slot applies to all of the region or to none, for all bases, if and only if its mask is such a mask |
| Mtrr.SplitIsReal | 01.Detection modules/core/cache.c:157-186 | the scan gives up only on a slot that applies to part of the region |
| Mtrr.HoleBreaksEqual | 01.Detection modules/core/cache.c:182-185 | with a hole in a mask it can be wrong: a concrete case |
| Mtrr.Precedence | 01.Detection modules/core/cache.c:108-133 | UC beats all, WT beats the rest, whatever the order of the slots |
| Mtrr.FirstDecides | 01.Detection modules/core/cache.c:108-133 | otherwise the first slot that applies decides; none does iff the default is used |
| Mtrr.FixLayout | 01.Detection modules/core/cache.c:91-106 | the fixed-range byte of an address is that of its 4, 16 or 64 KiB piece |
| MtrrTypes.GetMtrrType | 01.Detection modules/core/cache.c:81-141 | get_mtrr_type as a loop; its result is the type that the registers give, bit by bit: UC with E clear; below 1 MiB with FE the byte of the 4, 16 or 64 KiB piece, or WB under pass_mtrrfix; otherwise UC or WT if an applying slot says so, else the first applying slot, else WB between 4 GiB and TOM2 when enabled and forced, else the default |
| MtrrTypes.TypedUnique | 01.Detection modules/core/cache.c:81-141 | that specification names one type for every address |
| MtrrTypes.EqualIff | 01.Detection modules/core/cache.c:143-195 | mtrr_type_equal says true iff E is set, the region is not among the fixed ranges, and an uncached slot settles it before any slot is given up on, or none is given up on and a slot decides or the region does not straddle TOM2; judged by bits of mask and base |
| Mtrr.MtrrTypeEqual | 01.Detection modules/core/cache.c:143-195 | mtrr_type_equal as a loop |
| Barrier.NoneReturnsEarly | 01.Detection modules/core/ap.c:512-531 | under every interleaving no processor returns from its k-th call before all have begun theirs, and none is more than one round ahead |
| Barrier.ExitStable | 01.Detection modules/core/ap.c:527-530 | once a spinning processor can leave, it still can after any steps of the others, also when sync_id wraps |
| Barrier.SpinExits | 01.Detection modules/core/ap.c:527-530 | the 32-bit comparison is true exactly when the round has ended |
| Barrier.AllReturn | 01.Detection modules/core/ap.c:512-531 | once all have begun their k-th call, under every schedule (processors that are out may begin the next call): those still in it have at most eight moves each left, when these are made all have returned, and until then one of those can move |
| SharedStack.PopSound | 01.Detection modules/core/acpi_dsdt.c:235-254 | popping keeps every count right and every other list as it was |
| SharedStack.DropSound | 01.Detection modules/core/acpi_dsdt.c:256-293 | parsefree*list keeps every count right and every other list as it was |
| SharedStack.DropFrees | 01.Detection modules/core/acpi_dsdt.c:256-293 | it frees exactly the nodes that are on no other list |
| SharedStack.NoLeak | 01.Detection modules/core/acpi_dsdt.c:256-293 | when no head pointer is left, no node is |
| AmlParser.PopCurSound | 01.Detection modules/core/acpi_dsdt.c:707-716 | popping changes no list another configuration sees |
| AmlParser.DropCurSound | 01.Detection modules/core/acpi_dsdt.c:2222-2227 | dropping a configuration changes no list another one sees |
| AmlParser.ForkSound | 01.Detection modules/core/acpi_dsdt.c:311-353 | addbufsub leaves the current and all other configurations as they are |
| AmlParser.ForkView | 01.Detection modules/core/acpi_dsdt.c:311-353 | the new configuration sees the expansion on top of the lists of the one it was forked from, with the element and its OK unless the element is on top of the path already |
| AmlParser.StepWaits | 01.Detection modules/core/acpi_dsdt.c:2203-2221 | an accepted configuration goes to the ok list and not back to work; it leaves that list only when no work is left, and then all of them become work |
| AmlParser.RunWaits | 01.Detection modules/core/acpi_dsdt.c:388-404 | in every run over one byte what was accepted stays accepted, so no configuration reads the byte twice |
| AmlParser.RunSound | 01.Detection modules/core/acpi_dsdt.c:676-716 | in every run each node's count is the number of heads and next pointers to it, and with no configuration left no node is |
| AmlMachine.FreeNodes | 01.Detection modules/core/acpi_dsdt.c:256-293 | the loop of parsefree*list |
| AmlMachine.Machine.PopList | 01.Detection modules/core/acpi_dsdt.c:707-716 | the pop sequence in place |
| AmlMachine.Machine.AddBufSub | 01.Detection modules/core/acpi_dsdt.c:311-353 | addbufsub in place |
| AmlMachine.Machine.Err | 01.Detection modules/core/acpi_dsdt.c:2222-2227 | the err path in place |
| AmlMachine.Machine.GetBuf | 01.Detection modules/core/acpi_dsdt.c:388-403 | getbuf in place |
| AmlMachine.Machine.Finish | 01.Detection modules/core/acpi_dsdt.c:686-705 | from any state, the end of parsemain and parser leaves no path, buffer or limit node |

## Left out

- SptMap.SetPdeSound: setpde, and likewise setpdpe, mapsub, map_page and the loop of makerdonly over all vcpus, are modelled on values; update in place is captured one vcpu at a time, and for update_shadow over all of them, in SptVcpu.
- SptAgree.TablesAgree: with CR0.WP=0 only what the user may do is bounded by the guest's entry; the supervisor may write.
- SptRegion.RunsMatch: shadow pages that are marked modified, and the levels above the page directories, may lag behind guest memory until the guest flushes; no agreement is stated for them.
- SptSeen.FaultFits: physical addresses of at most 48 bits, since pmap_read drops the bits above; two-level guests are in SptSeen2.FaultFits2.
- SptSeen2.FaultFits2: a PDE with bit 7 while CR4.PSE is clear is not included (GuestWalk2.NoPseCase); CR3 has 32 bits.
- SptRuns.UnmapRangeSound: the current vcpu; the answer for another vcpu is in SptVcpu.Vcpu.MapSearch.
- SptEntry.SetGfns: GFN_GLOBAL and GFN_UNUSED are one value.
- RwMap.ProtectSound: host frames below 2^36; RwMap.ProtectExact gives the rest for the current vcpu.
- SptGrant.MapPageGrants: the vcpu's fail list is empty; which PTE the fault will use, and so whether it waits on that list, is decided inside map_page (SptGrant.UpdateExact is exact for the PTE).
- SptEntry.WriteFaultExact: the same.
- SptFault.MapPageSound: bounds write access from above; it is exact for write faults when the vcpu's fail list is empty (SptGrant.MapPageGrants), since an earlier registration of the PTE on that list takes the new write access away again.
- SptEntry.FaultGrants: CR0.WP=1; CR0.WP=0 is in SptEntry.NoWpGrants and SptEntry.NoWpServes.
- SptEntry.NoWpServes: the vcpu's fail list is empty, as for SptGrant.MapPageGrants.
- Tiers.SmallAllocSound: the spinlocks between the tiers are not modelled; each call is one step.
- Mtrr.EqualSound: says when a true answer is right; mtrr_type_equal also answers false for regions that are uniform (MTRRs disabled, or a slot that splits the region without changing the type).
- GuestWalk.GetPteAgrees: no other processor changes the tables during the walk, so the retry after a failed write back is not exercised (NoRetry says when it would be).
- GuestWalk2.GetPteAgrees2: a PDE with bit 7 while CR4.PSE is clear is not included; GuestWalk.AssertIff and GuestWalk2.NoPseCase say what happens to it.
- TierRoom.AcceptedIff: the first part of a two-part block of pages is in TierAlloc.FreePair.
- TierRoom.RunsOutIff: the sizes that get_alloc_pages_size chooses for pages are described by Sizing.ChooseLeast, Sizing.PagesBound and Sizing.CoveredIff.
- PageCursor.RunRefines: writes that leave a stale entry (PageCursor.WriteFits says which) and tables that contain themselves are outside the run (a write must not hit another entry held).
- Buddy.FreeSubEffect: a two-part block is in BuddyCont.FreeCont, and any page number in Buddy.FreeSubInv.
- BuddyCont.AllocContSound: m <= n, and likewise AllocContComplete, AllocContFree and AllocContSame; SearchAbove and ClaimAbove reduce m > n to m == n.
- MmioRange.RangeCheckExact: ranges that do not wrap; wrapping ones are in MmioRange.RangeCheckCircle, zero-length ones in MmioRange.ZeroLengthCatchesAll.
- Mmio.Index.Access: an index whose handles are proper ranges; handlers that change registrations, and the deferred deletion in mmio_unlock, are not modelled.
- AmlParser.RunSound: which step is taken is left open, so the grammar, eqlist and sleep states are not modelled; namelen and nameflag of path nodes are not modelled.
- SPT_1, the initialisation of SPT_2 and all statistics counters.
- mempool_* in mm.c, mapmem, process memory, and the memory map of the firmware.
- Spinlock internals and TLB contents.
- mmio_access_page, mmio_range and the debug handlers of mmio.c.
- The set_* functions and make_pat_value of cache.c.
- The write_linearaddr_* and read_linearaddr_* accessors of cpu_mmu.c, and the instruction interpreter.
- Firmware, interrupt and device plumbing (acpi.c, calluefi.c, callrealmode.c, main.c, int.c and the like).
- The detector, flash translation and recovery parts of RansomTag outside the hypervisor core.
