# The nucleus: authority, memory lifetime, device reach and message passing

A model, in Dafny 4.11, of the kernel in `crates/kernel` and of the policy crates it rests on, with
proofs that hold over every run. `dafny verify dfyconfig.toml` checks all of it.

The kernel is a state machine whose steps are its entries: the system calls, the timer and console
interrupts, and, between entries, a translation unit caching an entry of its table. `Machine.dfy`
gives each entry its effect on the tables (`Step`), `Kernel.dfy` is the imperative kernel whose every
method is proved to have that effect, and `Runs.AlwaysInv` carries one invariant over every run from
every boot. What the steps do is stated a second time, outright: for each of the fifteen calls and for
interrupts, `Calls`, `Making`, `Drivers`, `Losses` and `Endings` give, from the arguments and the state alone, exactly
when it is refused and with which code, what it changes, and that it changes nothing else. `Guarantees.dfy`,
`Agreement.dfy` and `Delivery.dfy` read the promises off the runs:

- The delegation ledger, edited in place and spliced when a process dies, joins two capabilities in
  place exactly when one descends from the other in the full history of delegations, through dead
  processes too. REVOKE empties exactly the surviving descendants. Rights only shrink on the way down,
  and every capability that is not over a region descends from one handed out at boot.
- Free frames, process frames and region frames are the machine's memory at every boundary, each frame
  once. After every single step of a teardown plan no free frame is named by a window, a table entry, a
  cached translation or a grant.
- Whatever a process has (windows, device mappings, a blocked rendezvous, an interrupt wait, pending
  interrupts, the device window) is backed by a capability it holds at that moment, with the right type,
  object and right.
- SEND and RECV are one atomic rendezvous whichever of the two copy paths runs: every match has one
  receipt or is still owed it, a receipt is what its receiver finds in its return registers, and a SEND
  that was refused is never taken afterwards.
- Each domain's table agrees with its model in every run. A mapping, completed or rolled back, keeps the
  two in agreement if and only if it narrows no frame already mapped there, and the capability discipline
  makes a narrowing unreachable: a process that commands a device holds nothing handed over beside that
  command, so it owns every live region it can name, and each region is mapped with its owner's one set
  of rights. What a device can do to a frame is therefore exactly what the owner's capability says.
- Interrupts on a held line are all accounted for. Each verdict on a machine with nothing to run is true:
  a parked one can always be woken, in a deadlock nobody can ever move again, and one that reports that
  all is done holds nothing.
- Nobody ever owns more live regions than the quota.

Beside these the table below ends with their companions: what single calls and refusals leave, read off
one step at a time.

Beside the machine stand the components proved on their own terms: the ledger's fixpoint on arbitrary
graphs and its splice on forests (`Deleg`), bounded teardown plans (`Regions`), the domain tables
(`Iommu`), the real 64-bit table words (`Dma.Unit`), the queued endpoint with its ring buffers (`Ipc`), the run
queue as the fixed array and cursor it is (`Sched.Scheduler`), the two ELF loaders as one (`Loader`), and
the bus walk (`Pci`).

## Layers

| files | what they hold |
|---|---|
| Abi, Basics, Seqs, Graph, Table | rights, result codes, sizes; reachability and forests; fixed slot tables as maps |
| Deleg, Capabilities, Regions, Iommu, Dma, Ipc, Sched, Loader, Pci | one file a component: specification, imperative form, laws |
| Authority | capabilities, ledger and the history of births side by side |
| Memory, Lifetime, Plans, Supply | frames, windows, records and devices; taking them away, planning it, handing them out |
| Bank | the device domains together: each one's table words and model side by side, kept apart from the others |
| Rendezvous | blocked senders and receivers, with a log of sends, matches and receipts |
| Machine | the state, the events, and what each entry does |
| Invariant, MemorySteps, LifeSteps, Runs | the invariant, and that every entry keeps it |
| Tenure | who owns what a device's holder can name, over every run |
| Calls, Making, Drivers, Losses, Endings | what each call does: the end of an entry, talking and interrupts; making and showing; device reach; REVOKE; FREE_REGION and EXIT |
| Guarantees, Agreement, Delivery, Effects | what every run, and what single calls, promise |
| Kernel | class `Nucleus`: the kernel's own loops and updates, over the real table words of `Bank`, each proved to be its specified effect |

## How the source is read

- The history of births, the logs of sends, matches and receipts, and the counts of interrupts since
  load are records kept for stating properties; no entry's behaviour depends on them.
- What the hardware or an allocator decides is part of the event: which free frames come back, whether a
  user copy or a page-table walk succeeds, and the bytes a sender has at the call. So every theorem
  holds for every such choice. The order in which a revocation reports is an event parameter too: the
  theorems hold for any order of the right endpoints.
- Every invalidation issued completes before its entry ends (sections 2.4.1 to 2.4.3 of the AMD I/O
  Virtualization Technology specification); units cache only between entries.
- Interrupt counters saturate at 2^64 - 1 as in the code, and what is lost that way is counted apart.
  Loader arithmetic is on 64-bit words with each checked, saturating or clamped operation written out.
  Rights are eight-bit masks. Region identities refuse at their limit as the code does.
- A fresh process starts with its three return registers clear, as on x86; on RISC-V the status register
  is also the one that brings a process its identity when it first runs. Its message buffer keeps
  what the slot last held, as in the code.
- A device address is its table slot times the page size, as `map_dma` returns it. A share window's
  address is counted from the base of the share area.
- `Sized` guards in `Machine` and `Agreement` only make the definitions total: `Runs.AlwaysInv` with
  `Runs.InvSized` shows every reachable state passes them.

## Where the code and its description differ

- `Domain::grant` with fewer rights (`crates/iommu/src/lib.rs:127-147`) withdraws model mappings without
  touching table entries, so beside a table it can leave an entry its model has forgotten:
  `Dma.NarrowingDisagrees` is a concrete case. That is a fact about `grant`, not about the kernel, which never
  makes such a call (`Agreement.NothingEverNarrows`), so that `Agreement.TablesMatchModels` holds of every run.
  The comment at `crates/kernel/src/lib.rs:2610-2613` allows for a mapping that widens an
  earlier one's grant; no run has that either, since every mapping of a region, in every domain, carries
  its owner's rights (`Tenure.AlwaysTenured`).
- The device window is taken away when no Mmio capability with READ is left, whichever device it names
  (`crates/kernel/src/lib.rs:624-628`). It is nevertheless always backed by a capability for the very
  device it shows: whoever can lose a capability by revocation has only that one beside regions it made
  (`LifeSteps.RevokeLone`).
- `splice_out` keeps one source per dead endpoint. On a graph with two sources the second loses its
  reach (`Deleg.SplicingNeedsOneSource`). The kernel's ledger is always a forest, so
  `Guarantees.LedgerIsHistory` is unconditional.
- The bus walk probes functions 1 to 7 when function 0 is absent. Section 6.2.1 of PCI Local Bus 3.0
  makes function 0 mandatory; `Pci.StandardRuleIff` says exactly which devices the two readings differ on.

## Model

| member | source | states |
|---|---|---|
| `Runs.AlwaysInv` | crates/kernel/src/lib.rs:4321-4798 | at every kernel-entry boundary of every run from every boot, the whole invariant holds: authority, memory, message passing, interrupts and scheduling |
| `Runs.StepInv` | crates/kernel/src/lib.rs:4321-5062 | every enabled system call, interrupt and device-caching step keeps the invariant |
| `Runs.ServiceCore` | crates/kernel/src/lib.rs:4329-4793 | servicing each of the fifteen modelled calls keeps everything but the choice of who runs next |
| `Runs.InterruptInv` | crates/kernel/src/lib.rs:4808-5062 | timer and console interrupts, taken while running or while parked, keep the invariant |
| `Runs.DispatchInv` | crates/kernel/src/lib.rs:1446-1521 | ending an entry resumes the queue's current process if there is one, and otherwise parks, reports a deadlock or finishes as the process states say |
| `Runs.NobodyHopeless` | crates/kernel/src/lib.rs:1450-1465 | no reachable interrupt waiter is past answering, so the wake-the-uncreditable pass wakes nobody |
| `Runs.UnitInv` | crates/kernel/src/lib.rs:2731-2747 | a unit caching any present entry between entries keeps the invariant |
| `Runs.BootInv` | crates/kernel/src/lib.rs:4139-4150 | any boot with role tables free of region capabilities establishes the invariant |
| `Guarantees.LedgerIsHistory` | crates/kernel/src/lib.rs:4213-4219 | in every run, two capabilities in place are joined by ledger edges exactly when one descends from the other in the full delegation history, through dead processes too; the descendant confers no more |
| `LifeSteps.RevokeIsExact` | crates/kernel/src/lib.rs:4756-4775 | REVOKE empties exactly the surviving descendants, over the whole history, of the named capability and keeps the named one |
| `Guarantees.AuthorityComesFromBoot` | crates/kernel/src/lib.rs:4490-4562 | every capability not over a region comes down, by delegations that only lose rights, from one granted at boot: spawning creates no authority |
| `Guarantees.StepHistory` | crates/kernel/src/lib.rs:4530-4562 | no kernel entry creates parentless authority except over a region |
| `Guarantees.HoldingsAreBacked` | crates/kernel/src/lib.rs:612-706 | at every boundary each live process's windows, device mappings, blocked SEND, RECV or interrupt wait, interrupt credits and device window are backed by a capability it holds with the right type, object and right; the device window by one Mmio capability for that very address, which carries READ, and WRITE if the window is writable |
| `Guarantees.WindowsAreAuthorized` | crates/kernel/src/lib.rs:4940-5020 | every frame a window shows belongs to the live region its slot names, and the window is writable only under a capability carrying WRITE |
| `Guarantees.DeviceReachIsAuthorized` | crates/kernel/src/lib.rs:635-664 | every frame any device table reaches was asked for by a live process that still holds READ on the region and WRITE on that domain |
| `Guarantees.DeviceEntriesAreTheOwners` | crates/kernel/src/lib.rs:2533-2627 | every present entry of every device table shows a frame of a live region to a device its live owner commands, with exactly the access of that owner's own capability over the region |
| `Guarantees.PoolUnreachable` | crates/kernel/src/lib.rs:894-983 | in every run no frame in the pool is named by a share window, a present table entry, a cached translation or a grant |
| `Guarantees.FramesConserved` | crates/kernel/src/lib.rs:4190-4211 | free frames plus process frames plus region frames is the machine's memory in every run, each frame once; a region's frames are nobody else's |
| `Guarantees.FinishedHoldsNothing` | crates/kernel/src/lib.rs:1488-1521 | when the machine reports that all is done, the pool is every frame, no region is live, no table has an entry and no domain a grant: the shutdown checks cannot fire |
| `Guarantees.CachedIsCurrent` | crates/kernel/src/lib.rs:2737-2797 | at every boundary whatever a unit has cached is still what its table says, and its frame is not free |
| `Guarantees.RendezvousIsAtomic` | crates/kernel/src/lib.rs:4349-4475 | each match is of one logged SEND on the same endpoint, taken once; it has exactly one receipt, or its receiver is still owed it; a receipt is its own receiver's and carries that SEND's word and the first min(len, max) bytes of the sender's memory at the call, whichever copy path ran; no endpoint has waiters on both sides; the run queue is the ready processes (that the log is of the calls made is `Calls.SendDoes` and `Delivery.StepOnward`) |
| `Delivery.DroppedStaysDropped` | crates/kernel/src/lib.rs:4226-4250 | a SEND that was not taken and whose sender no longer waits is never taken, over every continuation of the run |
| `Delivery.RefusedIsDropped` | crates/kernel/src/lib.rs:4241-4250 | a blocked sender woken with NO_CAP leaves its SEND in exactly that condition |
| `Delivery.StepOnward` | crates/kernel/src/lib.rs:4349-4475 | over one entry, whatever is newly taken was waiting before or newly sent, nothing old starts to wait again, no entry but a SEND adds to the log of SENDs, and every receipt made is what its receiver then finds in its three return registers, with nothing more owed to it |
| `Guarantees.InterruptsAccounted` | crates/kernel/src/lib.rs:732-757 | for a held line, interrupts since load equal those collected plus pending plus saturated; an unheld line has none pending; lines never mix |
| `Guarantees.IdleCanAlwaysWake` | crates/runstate/src/lib.rs:82-120 | a parked machine always has a delivered interrupt that makes it run again: it never hangs idle |
| `Guarantees.DeadlockIsReal` | crates/runstate/src/lib.rs:82-121 | a deadlock verdict is true: someone is alive, everyone alive waits in SEND or RECV with nobody at the other end, and no interrupt of any line would move anyone |
| `Guarantees.DeadlockIsFinal` | crates/runstate/src/lib.rs:103-121 | from a deadlock on, whatever still happens moves no process: only units go on caching |
| `Agreement.TablesMatchModels` | crates/kernel/src/lib.rs:2533-2627 | in every run, at every boundary, each domain's present entries are exactly the encodings of its live model mappings |
| `Agreement.NothingEverNarrows` | crates/kernel/src/lib.rs:2573-2592 | no event of any run is a MAP_DMA that maps a frame again with rights that do not contain those it was mapped with |
| `Tenure.AlwaysTenured` | crates/kernel/src/lib.rs:4851-4933 | in every run a region capability that was not handed over names, if anything live, its holder's own region, and every model mapping of a region in any domain carries exactly the rights of its owner's capability |
| `Tenure.AlwaysWithinQuota` | crates/kernel/src/lib.rs:4851-4865 | in every run no process owns more live regions than the quota, counted as a set of table slots |
| `Tenure.CountsOwned` | crates/kernel/src/lib.rs:4851-4865 | the count MAKE_REGION refuses by is the number of regions owned |
| `Tenure.StepTenure` | crates/kernel/src/lib.rs:4329-4793 | every enabled step keeps that |
| `Tenure.ServiceTamed` | crates/kernel/src/lib.rs:4329-4793 | every call but SPAWN, MAKE_REGION and MAP_DMA adds no capability, no region and no device mapping, and keeps every domain's table in agreement with its model |
| `Tenure.DriverOwns` | crates/kernel/src/lib.rs:4668-4681 | a process that passes both of MAP_DMA's authority checks holds the region's capability first-hand, and owns the region if it is live |
| `Tenure.DriverNarrowsNothing` | crates/kernel/src/lib.rs:2573-2592 | its mapping of any of that region's frames, in any domain, narrows nothing |
| `Agreement.StepAgrees` | crates/kernel/src/lib.rs:2533-2797 | from agreement, one step keeps it if and only if it is not a MAP_DMA that narrows a frame, which is decided from the state before the call |
| `Agreement.MapAgreesExactly` | crates/kernel/src/lib.rs:2533-2627 | MAP_DMA keeps table and model in agreement if and only if none of the pages there is room to try is already mapped there with rights its own do not contain |
| `Calls.SendDoes` | crates/kernel/src/lib.rs:4349-4414 | SEND, from its own arguments: NO_CAP exactly without an endpoint capability carrying WRITE, FAULT exactly for a payload too long or one the caller's memory does not yield, each changing nothing else; otherwise the log gains exactly this caller's SEND on this endpoint with this word, length and memory, and the first waiting receiver is told OK, the word and the count and owed the bytes at the address it offered, or the caller waits with just that |
| `Calls.RecvDoes` | crates/kernel/src/lib.rs:4415-4475 | RECV, from its own arguments: the buffer vetted first, then NO_CAP exactly without READ, then FAULT exactly if the copy fails; otherwise the first waiting sender's word, count and bytes with that sender told OK, a match with this endpoint and the smaller of the wanted and the possible, or the caller waits offering exactly its address and that size |
| `Endings.SenderIsTold` | crates/kernel/src/lib.rs:4361-4412 | over any entry, a waiting sender whose SEND is taken is ready and told OK, and one whose SEND is not taken waits on or is ready and told NO_CAP |
| `Losses.RevokeDoes` | crates/kernel/src/lib.rs:603-706 | REVOKE: refused exactly for an empty slot; afterwards, for every live process, each window, device mapping, pending count and device window is there as before exactly if the capabilities it has left back it, a blocked process is as before register for register exactly if they still let it wait, each domain has lost exactly the frames of lost records, and a process nothing was reported of is untouched |
| `Endings.ExitDoes` | crates/kernel/src/lib.rs:4184-4251 | EXIT and a fault: exactly the caller's frames, slots, capabilities and regions go, the regions from everybody's windows, records, capabilities and domains; a peer still waits register for register exactly if some other live process could answer it and is told NO_CAP if not; nobody else is touched |
| `Endings.FreeRegionDoes` | crates/kernel/src/lib.rs:4718-4736 | FREE_REGION destroys exactly if the slot holds a capability with WRITE over a live region the caller's own identity owns; then exactly that region goes from the table, every window, record, capability and domain, and its frames are pooled; in every other case only NO_CAP is told |
| `Drivers.UnmapDmaDoes` | crates/kernel/src/lib.rs:4695-4717 | UNMAP_DMA: NO_CAP exactly without both authorities or for a domain or region that is not, NO_MEM exactly where no domain is claimed; otherwise the named domain keeps no entry, mapping or grant of the region's frames and every other one, its unit caches nothing, exactly the caller's records of the pair go, and nothing else changes |
| `Drivers.MapDmaDoes` | crates/kernel/src/lib.rs:2533-2627 | MAP_DMA in any state a run reaches: each refusal by code with its exact condition, the last being mappings that would not fit, which leaves table and mappings as they were; otherwise the lowest free run of the named domain holds exactly the region's frames with exactly the capability's rights, the first empty record names the pair, and nothing else changes |
| `Making.SpawnDoes` | crates/kernel/src/lib.rs:4476-4587 | SPAWN: each refusal by code with its exact condition, the first being no Untyped capability with WRITE; success tells the caller the child's identity, gives the child exactly the named capability attenuated to the request or nothing, records whence in ledger and history, builds it from exactly the frames loaded, and touches nobody else; a failed load uses up an identity and nothing more |
| `Making.MakeRegionDoes` | crates/kernel/src/lib.rs:4851-4933 | MAKE_REGION: NO_CAP exactly without an Untyped capability with WRITE, NO_MEM exactly for one of six written-out wants, neither leaving a trace; otherwise the first free slots of table and capability space hold the new region, the caller's own, and the right to it |
| `Making.MapRegionDoes` | crates/kernel/src/lib.rs:4940-5020 | MAP_REGION: NO_CAP exactly without a readable capability over a live region, NO_MEM without a slot or when the mapping fails; otherwise exactly the slot that named the region or the first free one shows it, writable exactly as the capability is |
| `Making.UnmapRegionDoes` | crates/kernel/src/lib.rs:4654-4665 | UNMAP_REGION empties every slot of the caller naming the capability's region, and is refused exactly if none does |
| `Making.MapBarDoes` | crates/hostcontract/src/lib.rs:113-146 | MAP_BAR: NO_CAP exactly without a readable Mmio capability, NO_MEM for no such window; otherwise the caller has exactly the named window if mapping and answer both succeed and none if either fails, and the frames it took either way |
| `Calls.PollDoes` | crates/kernel/src/lib.rs:4737-4755 | POLL_IRQ: NO_CAP exactly without READ on a line, zero for a line not counted, else everything pending on that line, collected |
| `Calls.WaitDoes` | crates/kernel/src/lib.rs:4588-4623 | WAIT_IRQ: likewise, zero for a line never delivered, and with nothing pending the caller waits for the line |
| `Calls.InterruptDoes` | crates/kernel/src/lib.rs:732-757 | an interrupt adds one pending, saturating, for every live holder of its line and nobody else, and tells a waiting one all of it; the timer passes the turn, another line does not |
| `Calls.YieldPassesTheTurn` | crates/kernel/src/lib.rs:4330-4333 | after YIELD the process queued next after the caller runs, round the end, and nothing else has changed but what it was owed |
| `Calls.EntryEnds` | crates/kernel/src/lib.rs:4292-4310 | once its call is done an entry changes only who runs, or the verdict, and that whoever runs takes what it is owed |
| `Making.BootGivesRoles` | crates/kernel/src/lib.rs:1700-1822 | each boot process has exactly its role's capabilities in order from the first slot, exactly its image's frames and its place as identity, and there is no other |
| `Effects.MakeRegionMintsOrNothing` | crates/kernel/src/lib.rs:4851-4933 | MAKE_REGION mints, in the returned slot and only under an Untyped capability with WRITE, one capability over a new region holding exactly the frames taken, with the rights it was made under, or leaves no trace at all |
| `Effects.FreeRegionLeavesNothing` | crates/kernel/src/lib.rs:4718-4736 | a successful FREE_REGION was by the region's owner, with WRITE; afterwards no live process has a window on, a record of, or a capability over the region, and its frames are in the pool |
| `Effects.MapRegionShows` | crates/kernel/src/lib.rs:4940-5020 | the slot of the returned address shows exactly the region's frames, writable exactly when the capability carries WRITE; no other slot of anybody changes |
| `Effects.UnmapRegionLeavesNone` | crates/kernel/src/lib.rs:4654-4665 | no slot of the caller shows the region any more, and every other slot of everybody is as it was |
| `Effects.MapDmaInstalls` | crates/kernel/src/lib.rs:2533-2627 | from the returned address on, exactly the region's frames with exactly the capability's access over entries that were absent, every other entry of every table unchanged; refused or rolled back, every entry unchanged |
| `Effects.ExitStrandsNobody` | crates/kernel/src/lib.rs:4226-4250 | after a death whoever is still blocked in SEND or RECV has another live process that could answer; those woken are ready, queued, and told NO_CAP |
| `Kernel.Nucleus.constructor` | crates/kernel/src/lib.rs:385-397 | the tables start empty, the domains' table words and grants among them: the state machine's state before any process |
| `Kernel.Nucleus.SyscallTrap` | crates/kernel/src/lib.rs:4321-4798 | one trap, through service, wake-ups and resume, is exactly one step of the machine and keeps the invariant |
| `Kernel.Nucleus.InterruptTrap` | crates/kernel/src/lib.rs:4808-5062 | one timer or console interrupt is exactly one step of the machine and keeps the invariant |
| `Kernel.Nucleus.Serve` | crates/kernel/src/lib.rs:4329-4793 | each call's arm computes that call's specified effect on all tables, POLL_IRQ, WAIT_IRQ and MAP_DMA included |
| `Kernel.Nucleus.Send` | crates/kernel/src/lib.rs:4349-4414 | SEND with every refusal in order; payload to a waiting receiver's kernel buffer, else parked; the step it equals is the one `Calls.SendDoes` states outright |
| `Kernel.Nucleus.Recv` | crates/kernel/src/lib.rs:4415-4475 | RECV with its buffer vetted first; parked payload taken, else the offer is parked; the step it equals is the one `Calls.RecvDoes` states outright |
| `Kernel.Nucleus.Spawn` | crates/kernel/src/lib.rs:4476-4587 | SPAWN: refusals in order, identity used up even by a failed load, child with an attenuated delegated capability and a recorded edge; the step it equals is the one `Making.SpawnDoes` states outright |
| `Kernel.Nucleus.Revoke` | crates/kernel/src/lib.rs:603-706 | the ledger's report, in the order it comes, stripped holder by holder; the step it equals is the one `Losses.RevokeDoes` states outright |
| `Kernel.Nucleus.Strip` | crates/kernel/src/lib.rs:624-705 | loss of a capability takes windows, device mappings, credits and waits with it, and wakes the stranded with exactly the registers their call returns; that it takes no more is `Losses.RevokeDoes` |
| `Kernel.Nucleus.Teardown` | crates/kernel/src/lib.rs:4184-4251 | device reach, region plan, frames, ledger, slot and queue in that order, then every unanswerable peer is woken |
| `Kernel.Nucleus.Bury` | crates/kernel/src/lib.rs:4184-4224 | the dying process itself: after its plan, whose length always fits, nothing of it is left |
| `Kernel.Nucleus.RunRegionPlan` | crates/kernel/src/lib.rs:894-983 | the plan's steps, in order, have exactly their specified effect on memory, capabilities and ledger |
| `Kernel.Nucleus.ForgetCaps` | crates/kernel/src/lib.rs:908-921 | every live process's capabilities over a region go, and with each every edge naming its slot |
| `Kernel.Nucleus.Release` | crates/kernel/src/lib.rs:922-978 | table entries and model in every domain, invalidation if anything was cleared, records, then the frames |
| `Kernel.Nucleus.WithdrawFrames` | crates/kernel/src/lib.rs:937-948 | page by page and domain by domain, exactly the table words and model mappings of these frames go, and the result says whether a word did |
| `Kernel.Nucleus.WithdrawWhere` | crates/kernel/src/lib.rs:2750-2764 | the selected records withdrawn, one by one, each from its domain's table words, and the units told once if a word was cleared |
| `Kernel.Nucleus.InvalidateAll` | crates/kernel/src/lib.rs:2737-2743 | every claimed unit forgets what it cached |
| `Kernel.Nucleus.UnmapShareSlot` | crates/kernel/src/lib.rs:989-1006 | one share slot unmapped if it maps anything |
| `Kernel.Nucleus.UnmapRegion` | crates/kernel/src/lib.rs:4654-4665 | every slot of the caller showing the named region unmapped, or NO_CAP |
| `Kernel.Nucleus.MapRegion` | crates/kernel/src/lib.rs:4940-5020 | slot reuse, prior window dropped, page tables charged, access from the capability's own rights; a failed mapping leaves the slot with no window |
| `Kernel.Nucleus.FreeRegion` | crates/kernel/src/lib.rs:4718-4736 | only the owner, only with WRITE, destroys; the plan always fits; the step it equals is the one `Endings.FreeRegionDoes` states outright |
| `Kernel.Nucleus.MakeRegion` | crates/kernel/src/lib.rs:4851-4933 | quota, table, identity, frames and capability slot all checked before anything is changed; otherwise no trace; the step it equals is the one `Making.MakeRegionDoes` states outright |
| `Kernel.Nucleus.InstallDma` | crates/kernel/src/lib.rs:2533-2627 | MAP_DMA on the real table words: domain looked up, run of absent words scanned for, pages granted, mapped and written one by one and unwound on refusal, each refusal in the order it is decided |
| `Kernel.Nucleus.UnmapDma` | crates/kernel/src/lib.rs:2771-2798 | both authorities demanded; the region leaves that domain, the caller's records of it go, that unit is told; the step it equals is the one `Drivers.UnmapDmaDoes` states outright |
| `Kernel.Nucleus.CreditIrq` | crates/kernel/src/lib.rs:732-757 | every live holder credited with saturation, every waiting one answered and queued |
| `Kernel.Nucleus.MapBar` | crates/hostcontract/src/lib.rs:113-146 | a refusal, or the named capability's page of registers mapped with the access it carries |
| `Kernel.Nucleus.ResumeProcess` | crates/kernel/src/lib.rs:4292-4310 | an owed copy is made, or reported as a fault, before the process runs |
| `Kernel.Nucleus.NothingRunnable` | crates/kernel/src/lib.rs:1446-1487 | uncreditable waiters woken, then the machine resumes or takes its verdict |
| `Kernel.Nucleus.Classify` | crates/runstate/src/lib.rs:103-121 | park, deadlock or done, decided by the state vector alone |
| `Kernel.Nucleus.Stranded` | crates/kernel/src/lib.rs:4226-4240 | blocked on an endpoint no other live process can answer |
| `Kernel.Nucleus.Load` | crates/kernel/src/lib.rs:1675-1822 | a boot process gets its role's capabilities one by one in the first free slots |
| `LifeSteps.RevokeCore` | crates/kernel/src/lib.rs:603-706 | REVOKE keeps the invariant for any order of the ledger's report, beside its exact effect in `Losses.RevokeDoes` |
| `LifeSteps.StrippedBody` | crates/kernel/src/lib.rs:624-705 | after a strip what is left is backed again; that nothing backed is taken is `Losses.RevokeDoes` |
| `LifeSteps.StillWritable` | crates/kernel/src/lib.rs:628-637 | a holder that may still read a region after a loss keeps the WRITE its writable window rests on: it never has two capabilities over one region |
| `LifeSteps.RevokeLone` | crates/kernel/src/lib.rs:603-706 | what a REVOKE reports is all its holders have beside regions they made: nothing with the lost capability's authority hides in another slot |
| `LifeSteps.ExitCore` | crates/kernel/src/lib.rs:4184-4251 | process death, clean or by fault, keeps the invariant |
| `LifeSteps.DismantledCore` | crates/kernel/src/lib.rs:4184-4203 | at the end of its plan a dying process has no window, no record and no region |
| `LifeSteps.SpawnCore` | crates/kernel/src/lib.rs:4476-4587 | SPAWN keeps the invariant in every outcome, failed loads included, beside its exact effect in `Making.SpawnDoes` |
| `MemorySteps.MakeRegionCore` | crates/kernel/src/lib.rs:4624-4641 | MAKE_REGION keeps the invariant in every outcome, beside its exact effect in `Making.MakeRegionDoes` |
| `MemorySteps.MapRegionCore` | crates/kernel/src/lib.rs:4642-4653 | MAP_REGION keeps the invariant, with windows showing exactly the region's frames |
| `MemorySteps.UnmapRegionCore` | crates/kernel/src/lib.rs:4654-4665 | UNMAP_REGION keeps the invariant |
| `MemorySteps.FreeRegionCore` | crates/kernel/src/lib.rs:4718-4736 | FREE_REGION keeps the invariant, beside its exact effect in `Endings.FreeRegionDoes` |
| `MemorySteps.MapDmaCore` | crates/kernel/src/lib.rs:4666-4694 | MAP_DMA keeps the invariant: what it records is backed |
| `MemorySteps.UnmapDmaCore` | crates/kernel/src/lib.rs:4695-4717 | UNMAP_DMA keeps the invariant although it clears other processes' mappings of the region too, beside its exact effect in `Drivers.UnmapDmaDoes` |
| `MemorySteps.MapBarCore` | crates/hostcontract/src/lib.rs:113-146 | MAP_BAR keeps the invariant: the window it leaves is backed by the very capability named |
| `MemorySteps.ExecutedCore` | crates/kernel/src/lib.rs:894-983 | carrying out a region plan keeps authority, backing, ledger and memory together |
| `Invariant.SendCore` | crates/kernel/src/lib.rs:4349-4414 | SEND keeps the invariant on both copy paths, beside its exact effect in `Calls.SendDoes` |
| `Invariant.RecvCore` | crates/kernel/src/lib.rs:4415-4475 | RECV keeps the invariant on both paths, beside its exact effect in `Calls.RecvDoes` |
| `Invariant.CreditCore` | crates/kernel/src/lib.rs:732-757 | crediting balances every holder's account and wakes exactly the holders waiting for the line |
| `Invariant.PollCore` | crates/kernel/src/lib.rs:4737-4755 | POLL_IRQ keeps every line's account |
| `Invariant.WaitCore` | crates/kernel/src/lib.rs:4588-4623 | WAIT_IRQ parks only for a line that can be answered and has nothing pending |
| `Authority.DelegatedSound` | crates/kernel/src/lib.rs:4546-4562 | a recorded delegation to a fresh process keeps ledger and history in step |
| `Authority.MintedSound` | crates/kernel/src/lib.rs:4890-4901 | a minted capability is a new root of the history even in a slot used before |
| `Authority.BornSound` | crates/kernel/src/lib.rs:4530-4546 | a process with an empty capability space adds no authority |
| `Authority.RevokedSound` | crates/kernel/src/lib.rs:603-618 | revocation leaves the ledger exact for the survivors and empties exactly the descendants in place |
| `Authority.ReportedAreReached` | crates/deleg/src/lib.rs:126-154 | an endpoint is reported by a revocation if and only if the root reaches it, for any edge graph |
| `Authority.ReachedAreLone` | crates/kernel/src/lib.rs:4530-4562 | whatever a revocation reaches was handed over, and its holder has nothing else but capabilities over regions it made |
| `Authority.StrickenIsRevoked` | crates/kernel/src/lib.rs:611-620 | emptying the reported slots in any order is the revocation |
| `Authority.DiedSound` | crates/kernel/src/lib.rs:4213-4219 | splicing a dead process out keeps the ledger standing in for the history among survivors |
| `Authority.SweptSound` | crates/kernel/src/lib.rs:908-921 | a sweep of one region leaves nothing over it, touches nothing else, and the ledger exact again |
| `Authority.DroppedSound` | crates/kernel/src/lib.rs:851-853 | in the middle of a sweep the ledger is exact for everything not over that region |
| `Authority.AncestorDerives` | crates/deleg/src/lib.rs:103-115 | rights only shrink down any chain of delegations |
| `Authority.ReachDerives` | crates/deleg/src/lib.rs:103-115 | whatever the ledger joins has one type and object, and no more rights below |
| `Memory.SoundMeansUnreachable` | crates/kernel/src/lib.rs:922-978 | sound memory has no free frame named by a window, an entry, a cached translation or a grant |
| `Memory.AllGone` | crates/kernel/src/lib.rs:1488-1521 | with no process left, nothing is held or reachable |
| `Memory.RegionFrameIsExclusive` | crates/kernel/src/lib.rs:4876-4931 | a region's frame is in no other region, no process list and not the pool |
| `Plans.EveryStepSound` | crates/kernel/src/lib.rs:886-983 | after every single step of a plan, memory is sound and no free frame is named |
| `Plans.NothingShows` | crates/kernel/src/lib.rs:886-892 | when a plan comes to release a region no window shows it any more |
| `Plans.DestroyPlanOk` | crates/kernel/src/lib.rs:1018-1023 | the plan to destroy a region unmaps every holder first, sweeps what it releases, and fits |
| `Plans.TeardownPlanOk` | crates/kernel/src/lib.rs:1025-1029 | a dying process's plan unmaps all it has mapped, releases exactly what it owns, and fits |
| `Plans.DismantledSound` | crates/kernel/src/lib.rs:4198-4203 | withdrawal then plan leaves the dying process with nothing but its own frames |
| `Plans.VacatedSound` | crates/kernel/src/lib.rs:4204-4219 | its frames return to the pool, named by nothing |
| `Lifetime.ReleasedSound` | crates/kernel/src/lib.rs:922-978 | releasing a region no window shows returns its frames unreachable |
| `Lifetime.WithdrawRecordSound` | crates/kernel/src/lib.rs:2687-2731 | withdrawing one process's record keeps every other reach accounted for by a record |
| `Lifetime.WithdrewSound` | crates/kernel/src/lib.rs:2750-2764 | withdrawing several and telling the units once leaves no stale translation |
| `Lifetime.InvalidatedSound` | crates/kernel/src/lib.rs:2737-2743 | after the units are told nothing they hold is out of date |
| `Lifetime.UnmapDmaSound` | crates/kernel/src/lib.rs:2771-2798 | telling only the one unit is enough to keep memory sound; what is withdrawn is `Drivers.UnmapDmaDoes` |
| `Lifetime.SetWindowSound` | crates/kernel/src/lib.rs:4975-5013 | a window changed to show a live region, or nothing, keeps memory sound |
| `Supply.WithRegionSound` | crates/kernel/src/lib.rs:4873-4931 | a new region keeps memory sound and no domain authorizes its frames: the tripwire never fires |
| `Supply.LoadSound` | crates/kernel/src/lib.rs:1697-1822 | a process built from free frames keeps memory sound |
| `Supply.ChargedSound` | crates/kernel/src/lib.rs:366-381 | page-table frames charged to a process are conserved |
| `Supply.MapDmaSound` | crates/kernel/src/lib.rs:2533-2627 | success, refusal and rollback each keep every reachable frame accounted for, and touch only the caller's records |
| `Supply.CachedSound` | crates/kernel/src/lib.rs:2737-2747 | a unit caching an entry keeps memory sound |
| `Rendezvous.SendMatchedSound` | crates/kernel/src/lib.rs:4361-4394 | a payload handed to a waiting receiver is the sender's bytes, owed once |
| `Rendezvous.SendParkedSound` | crates/kernel/src/lib.rs:4395-4412 | a parked payload stays the sender's bytes until taken |
| `Rendezvous.RecvMatchedSound` | crates/kernel/src/lib.rs:4437-4461 | a taken payload is the parked one, its send taken once; that its sender is told OK is `Calls.RecvDoes` |
| `Rendezvous.RecvParkedSound` | crates/kernel/src/lib.rs:4462-4473 | an offer is parked only where no sender waits |
| `Rendezvous.CollectedSound` | crates/kernel/src/lib.rs:4292-4310 | the deferred copy delivers exactly what was owed, or reports the fault |
| `Sched.RoundRobin` | crates/sched/src/lib.rs:106-118 | over one lap every queued thread gets exactly one turn |
| `Sched.RemoveOk` | crates/sched/src/lib.rs:124-150 | removal keeps the rest, and the cursor on whoever was current |
| `Sched.AddOk` | crates/sched/src/lib.rs:86-94 | a thread is never queued twice |
| `Sched.Scheduler.Enqueue` | crates/sched/src/lib.rs:86-94 | the fixed array takes the thread at its tail, or refuses one that is queued already or finds no room |
| `Sched.Scheduler.Advance` | crates/sched/src/lib.rs:106-118 | the cursor moves on one place, round the end |
| `Sched.Scheduler.Current` | crates/sched/src/lib.rs:96-103 | whose turn it is, if anyone's |
| `Sched.Scheduler.Dequeue` | crates/sched/src/lib.rs:124-150 | shifting the tail down in place and moving the cursor is the specified removal |
| `Dma.MapAgreesIff` | crates/kernel/src/lib.rs:2580-2627 | on one device: agreement after a mapping, completed or rolled back, if and only if none of the first min(n, room + 1) pages, the room being what the mapping table has left, is already mapped with rights the new ones do not contain |
| `Dma.TriedIs` | crates/kernel/src/lib.rs:2580-2627 | up to the first narrowed page, a call tries every page there is room for and the first there is not |
| `Dma.WideningKeepsAgreement` | crates/kernel/src/lib.rs:2580-2627 | the condition a caller can check over the whole region |
| `Dma.MappedOrNot` | crates/kernel/src/lib.rs:2580-2627 | where nothing is narrowed a call succeeds exactly if old and new mappings fit together, and leaves all its mappings beside the old ones or the old ones, table and model alike |
| `Dma.NarrowingDisagrees` | crates/iommu/src/lib.rs:127-147 | of a grant beside a table, whoever makes it: a concrete narrowing after which a writable entry stays present that the model has forgotten; no run of the kernel makes one |
| `Dma.MapPagesKeepsOk` | crates/kernel/src/lib.rs:2580-2627 | every outcome keeps model mappings encoded in the table, the cache inside the table and no idle grant |
| `Dma.RefusalReasons` | crates/kernel/src/lib.rs:2587-2592 | a page is refused only for want of room, never for a slot in use |
| `Dma.WithdrawKeepsOk` | crates/kernel/src/lib.rs:2687-2709 | a withdrawal leaves nothing that names the region, in table, mappings or grants |
| `Dma.CacheKeepsOk` | crates/kernel/src/lib.rs:2737-2747 | caching a present entry keeps the device invariant |
| `Dma.FindRunFirstFit` | crates/kernel/src/lib.rs:2556-2572 | the slot scan finds the lowest free run, and fails only if there is none |
| `Dma.EncodeRoundTrip` | crates/kernel/src/lib.rs:2483-2502 | an entry reads back as the frame and permissions written, is a last-level entry and fits a word (section 2.2.3 of the AMD I/O Virtualization Technology specification) |
| `Dma.Unit.MapRegion` | crates/kernel/src/lib.rs:2580-2627 | the page loop over domain and table, with its unwinding, computes the specified outcome |
| `Dma.Unit.MapPage` | crates/kernel/src/lib.rs:2581-2623 | one page granted, mapped and written, or nothing but the grant changed |
| `Dma.Unit.UnwindPages` | crates/kernel/src/lib.rs:2602-2605 | exactly this call's mappings and entries are undone |
| `Dma.Unit.DropIdleGrants` | crates/kernel/src/lib.rs:2610-2617 | a grant goes only where no mapping rests on it |
| `Dma.Unit.FindFree` | crates/kernel/src/lib.rs:2556-2572 | the scan of the real table words is the specified search |
| `Dma.Unit.ClearEntries` | crates/kernel/src/lib.rs:2640-2660 | exactly the entries pointing at the frame are zeroed, with the report of whether any was |
| `Dma.Unit.WithdrawOne` | crates/kernel/src/lib.rs:2687-2709 | hardware entries first, then the model |
| `Bank.Domains.MapPagesOn` | crates/kernel/src/lib.rs:2580-2627 | one domain's words and model take the mapping or its rollback, every other domain untouched |
| `Bank.Domains.WithdrawEverywhere` | crates/kernel/src/lib.rs:937-948 | the nested loop over pages and domains clears these frames from every domain's words and model, and reports whether a word went |
| `Bank.Domains.WithdrawRegionOn` | crates/kernel/src/lib.rs:2687-2709 | a region's pages go from one domain, words before model |
| `Bank.Domains.FlushAll` | crates/kernel/src/lib.rs:2737-2743 | every claimed unit forgets what it cached, the unclaimed are left alone |
| `Bank.Domains.Find` | crates/kernel/src/lib.rs:2533-2548 | the claimed domain a capability names, if any |
| `Iommu.RunContained` | crates/iommu/src/lib.rs:246-251 | over every sequence of operations and any table sizes, every mapping is covered by its frame's grant and neither table overflows |
| `Iommu.Domain.GrantFrame` | crates/iommu/src/lib.rs:127-147 | the table refines a frame-to-rights map, withdrawing uncovered mappings |
| `Iommu.Domain.RevokeFrame` | crates/iommu/src/lib.rs:151-163 | grant and every mapping of the frame go, counted |
| `Iommu.Domain.MapFrame` | crates/iommu/src/lib.rs:168-190 | each refusal in order, or the mapping |
| `Iommu.Domain.UnmapIova` | crates/iommu/src/lib.rs:193-205 | one mapping goes, or nothing changes |
| `Iommu.Domain.WithdrawUncovered` | crates/iommu/src/lib.rs:263-269 | exactly the mappings the new rights do not cover go |
| `Iommu.Domain.ContainedCheck` | crates/iommu/src/lib.rs:246-251 | the check decides containment |
| `Deleg.SplicedForest` | crates/deleg/src/lib.rs:182-201 | on any forest in any layout, splicing leaves a forest that names the dead incarnation nowhere, and survivors reach exactly the survivors they reached |
| `Deleg.SplicingNeedsOneSource` | crates/deleg/src/lib.rs:170-181 | with two sources into the dead process the second loses its reach: the forest precondition is needed |
| `Deleg.RecordedForest` | crates/deleg/src/lib.rs:103-115 | recording a fresh child keeps the forest and adds exactly that reach |
| `Deleg.RecordedLinks` | crates/deleg/src/lib.rs:103-115 | one link added, or a full ledger unchanged |
| `Deleg.RevokedReach` | crates/deleg/src/lib.rs:126-154 | exactly the links below the root go, for any graph, and survivors' reach is untouched |
| `Deleg.RevokedForest` | crates/deleg/src/lib.rs:126-154 | revocation keeps a forest a forest |
| `Deleg.ForgottenLinks` | crates/deleg/src/lib.rs:208-214 | exactly the links naming the endpoint go |
| `Deleg.Ledger.Record` | crates/deleg/src/lib.rs:103-115 | the first dead slot is used; a full ledger refuses |
| `Deleg.Ledger.RevokeFrom` | crates/deleg/src/lib.rs:126-154 | terminates on any graph, kills exactly the edges derived from the root, reports each child once, conserves live plus reported |
| `Deleg.Ledger.SpliceOut` | crates/deleg/src/lib.rs:182-201 | the nested loops compute the splice |
| `Deleg.Ledger.Forget` | crates/deleg/src/lib.rs:208-214 | the loop drops exactly the edges naming the endpoint |
| `Deleg.Ledger.Len` | crates/deleg/src/lib.rs:90-92 | counts the live edges |
| `Regions.TeardownExact` | crates/regions/src/lib.rs:208-250 | the teardown plan is exactly the owned regions' dismantling plus the borrowed slots, each step once, unmaps before releases |
| `Regions.DestroyExact` | crates/regions/src/lib.rs:181-200 | the destroy plan is exactly the live holders, then the sweep, then the release; a stale id plans nothing |
| `Regions.StaleIdentityPlansNothing` | crates/regions/src/lib.rs:208-250 | an identity occupying neither slot nor region plans nothing |
| `Regions.TeardownFits` | crates/kernel/src/lib.rs:855-857 | P*S + 2*R steps always suffice for a teardown |
| `Regions.DestroyFits` | crates/regions/src/lib.rs:181-200 | and for a destruction |
| `Regions.Teardown` | crates/regions/src/lib.rs:208-250 | the loops fill a bounded plan with exactly the specified steps, flagged if they do not fit |
| `Regions.Destroy` | crates/regions/src/lib.rs:181-200 | likewise for one region |
| `Regions.Plan.Push` | crates/regions/src/lib.rs:121-128 | as much of the plan as fits, and the flag if some did not |
| `Regions.Plan.WellOrderedCheck` | crates/regions/src/lib.rs:146-159 | decides that no region is released before it is unmapped |
| `Capabilities.InsertAfterRevoke` | crates/capabilities/src/lib.rs:111-161 | a freed slot is refilled by the next insertion, carrying nothing of its predecessor and disturbing no other |
| `Capabilities.EmptiedKeeps` | crates/capabilities/src/lib.rs:155-161 | emptying a slot takes away authority only over what it named |
| `Capabilities.CapSpace.Insert` | crates/capabilities/src/lib.rs:111-123 | the first free slot, or a refusal of Null and of a full space |
| `Capabilities.CapSpace.Revoke` | crates/capabilities/src/lib.rs:155-161 | exactly the named slot |
| `Capabilities.CapSpace.HoldsCheck` | crates/kernel/src/lib.rs:1050-1104 | the scan behind every authority predicate decides it |
| `Abi.DelegatedRightsAreGreatest` | crates/abi/src/lib.rs:157-184 | what a delegation confers is the greatest set both held and requested |
| `Abi.IntersectIsMeet` | crates/abi/src/lib.rs:157-184 | what an intersection confers is exactly what both confer |
| `Abi.FromUserBits` | crates/abi/src/lib.rs:181-183 | the rights an untrusted word names are its three lowest bits |
| `Abi.ContainsIsPartialOrder` | crates/abi/src/lib.rs:157-159 | rights containment is a partial order |
| `Ipc.FifoPairing` | crates/ipc/src/lib.rs:217-269 | over every run and capacity the k-th delivery pairs the k-th accepted send and receive, unchanged; only one side ever waits |
| `Ipc.Queue.PushBack` | crates/ipc/src/lib.rs:120-130 | the ring buffer refines appending to a sequence |
| `Ipc.Queue.PopFront` | crates/ipc/src/lib.rs:132-140 | and removing its head |
| `Ipc.Endpoint.SendMessage` | crates/ipc/src/lib.rs:217-243 | deliver, block or queue-full, as the two sequences say |
| `Ipc.Endpoint.ReceiveMessage` | crates/ipc/src/lib.rs:250-269 | likewise for receive |
| `Ipc.CopyWords` | crates/ipc/src/lib.rs:275-284 | eight words, zero padded |
| `Loader.Machine.LoadElf` | crates/loader/src/lib.rs:124-185 | success yields exactly the specified image and the entry point; header refusals in their order; past the header, Truncated only for an image that is malformed, OutOfFrames only from an exhausted supply, and MapFailed only from one or for a page mapped before or claimed by two segments |
| `Loader.LoadedMeans` | crates/loader/src/lib.rs:189-267 | a loaded byte is the file's byte at its offset where the segment has one and zero elsewhere in its pages, with the header's permissions |
| `Loader.EhdrRoundTrip` | crates/loader/src/lib.rs:28-46 | a file header laid out as the ELF-64 object file format lays it out is judged by exactly what it says, and its entry, table place, entry size and count read back |
| `Loader.PhdrRoundTrip` | crates/loader/src/lib.rs:47-53 | a program header laid out as that format lays it out reads back as it was written |
| `Loader.Machine.LoadSegment` | crates/loader-riscv/src/lib.rs:196-274 | page by page without wraparound, up to the top of the 64-bit space, for either instruction set; a mapping fails only for want of frames or on a page mapped before |
| `Loader.Machine.LoadPage` | crates/loader/src/lib.rs:223-264 | one page allocated, filled and mapped |
| `Loader.Machine.FillPage` | crates/loader/src/lib.rs:235-254 | the clamped copy puts each file byte at its address and zeros elsewhere |
| `Loader.Machine.CheckHeader` | crates/loader/src/lib.rs:129-148 | each header refusal in order |
| `Loader.FlagsMeanWhatTheHeaderSays` | crates/loader-riscv/src/lib.rs:217-227 | write and execute permission exactly as the program header says, in either encoding |
| `Loader.Machine.AllocFrame` | crates/kernel/src/lib.rs:366-377 | every frame handed out is recorded, zeroed and at most the list's capacity |
| `Loader.Machine.BuildProcess` | crates/kernel/src/lib.rs:1675-1822 | image plus stack, or a rollback that returns every frame |
| `Loader.Machine.Rollback` | crates/kernel/src/lib.rs:1816-1820 | a failed build leaks nothing |
| `Pci.Enumerate` | crates/kernel/src/pci.rs:331-383 | terminates for any configuration space, queues each bus once, and says if it truncated |
| `Pci.ListingComplete` | crates/kernel/src/pci.rs:331-383 | untruncated, it lists exactly once each answering function of every bus reachable from bus 0 |
| `Pci.OfBusesExact` | crates/kernel/src/pci.rs:340-380 | what is listed per queued bus is exactly what answers, once |
| `Pci.StandardRuleIff` | crates/kernel/src/pci.rs:376-379 | the listing follows the multi-function rule of section 6.2.1 of PCI Local Bus 3.0 on a device if and only if function 0 is present, or no function is |
| `Pci.HeadlessIsListed` | crates/kernel/src/pci.rs:376-379 | a concrete configuration space with one device, answering at function 1 and not at function 0, which the walk lists and the published rule does not |
| `Pci.Scan.NoteBridge` | crates/kernel/src/pci.rs:350-362 | a secondary bus is queued unless zero, known or out of room |
| `Effects.SpawnHandsOver` | crates/kernel/src/lib.rs:4476-4587 | SPAWN changes the authority of nobody but a process that did not exist, only under an Untyped capability with WRITE, and that one has only what the caller named, with exactly the rights both held and requested |
| `Effects.MapBarShows` | crates/hostcontract/src/lib.rs:113-146 | MAP_BAR succeeds only with a window on the named capability's own address, writable exactly as it says; refused, it changes nothing or leaves no window; the table frames it took stay charged to the caller even when the mapping fails; nobody else is affected and a window appears only under an Mmio capability |
| `Effects.CollectedIsReturned` | crates/kernel/src/lib.rs:4588-4755 | what POLL_IRQ and WAIT_IRQ return is what they mark collected, on that line only, and nothing is pending there afterwards |
| `Effects.WokenIsCredited` | crates/kernel/src/lib.rs:732-757 | an interrupt wakes a waiter with everything pending plus this one |
| `Guarantees.DoneMeansDone` | crates/runstate/src/lib.rs:103-121 | the all-done verdict means no process is live |
| `Guarantees.RefusedSendIsSilent` | crates/kernel/src/lib.rs:4356-4412 | a SEND that does not succeed changes nothing but its return value, and one that meets a receiver records exactly one match |
| `Guarantees.RefusedRecvIsSilent` | crates/kernel/src/lib.rs:4426-4473 | a RECV that does not succeed changes nothing but its three return registers |

## Left out

- Hardware: trap frames, register save and restore, page-table and translation-unit programming, the PIC, the PLIC, UARTs and timers; an entry's effect on the kernel's tables is what is modelled.
- The command ring of the translation unit and its completion wait: each invalidation is the removal of cached entries.
- Devices acting in the middle of a kernel entry: they cache between entries only.
- The boot-time device demonstration, event-log probes and console output: a domain starts published with an empty table, or with none.
- The insides of `mm`, `vspace` and its RISC-V twin: the allocator hands out distinct free frames, and an address space is a finite map that refuses a page already mapped.
- Multi-level page-table walks, and the aliasing of addresses beyond the canonical range that the walk ignores: an address space is keyed by full page addresses.
- DEBUG_WRITE, GET_INFO and unknown call numbers: they change no table of the model.
- The counters of killed and parked processes and the pass or fail line printed at shutdown: only the verdict that leads there is modelled.
- Wrap-around of process identities: they are unbounded, as the code's 64-bit counter is in any feasible run.
- ACPI, multiboot and PVH parsing, and the error-code constants beyond the ones used: scans and bounds that would only add easy members.
- The contents of the boot grant tables: any table without region capabilities, which is what the source requires of one, is allowed.
- Timing and fairness beyond one lap of the run queue: a timer tick is an event that may or may not come.
- Kernel.Nucleus.SyscallTrap: asks that the machine's frames be below 2^40, all that the address field of a table word can name (`crates/kernel/src/lib.rs:2490`); the theorems about the state machine do not ask it.
- Kernel.Nucleus.RevokeAt: takes the reported endpoints, in whatever order, as given; that the ledger's loop reports exactly those is `Deleg.Ledger.RevokeFrom`.
- Kernel.Nucleus.Strip: takes a region's windows down slot by slot; the source unmaps by region identity, which reaches the same slots because the decision looks at the identity alone.
- Kernel.Nucleus.MapBar: records the capability's object and whether the window is writable; that the page behind it is the device's register page is the page-table walk's doing.
- Kernel.Nucleus: keeps the run queue, the capability spaces and the loading of an image as values; their array forms `Sched.Scheduler`, `Capabilities.CapSpace` and `Loader.Machine` are proved equal to the same functions beside it.
- Kernel.Nucleus.Load: takes the frames of a boot process as given; that loading an image leaves them recorded and mapped is `Loader.Machine.BuildProcess`.
- Loader.Machine.MapPage: up to three table frames may be taken on the way to a leaf; which levels needed one is not modelled.
- Pci.Enumerate: configuration space answers the same read the same way throughout one walk.
- Effects.MapRegionShows: gives the window's frames and access; the virtual pages behind it are whatever the address-space map holds for that slot.
