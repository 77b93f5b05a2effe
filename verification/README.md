# Kernel mechanisms and host runtimes of an agent-first operating system, in Dafny

A model of the mechanisms that the Ring 0 kernel, the agent runtime and the service supervisor of the
repository rest on, with proofs of what they promise over whole runs.

- **Capabilities** (`CapabilityModel`, `CapabilityLineage`, `CapabilitySweep`, `CapabilityRestart`,
  `CapabilityTables`): generation-tagged slots in many tables, linked upward by table, incarnation and handle.
  Revocation flips one slot; a walk finds dead ancestors later. A ledger of every derivation is the reference,
  and the walk is proved equal to it; from that, what destroying an object does to the handles that name it, and
  what a process gets back when it exits cleanly and restarts.
- **Page tables** (`PteBits`, `PageTables`, `AddressSpaces`, `MapOutcome`, `AddressSpaceObjects`): the four-level
  tree of 4-level paging (Intel SDM Volume 3A, section 4.5) in shared physical frames, proved against a flat map,
  with the exact condition for a map call to succeed. A map call is not atomic: what a failure leaves is the
  mapped prefix.
- **Page allocator** (`PhysAllocators`, `FrameSupply`): interval subtraction over an E820 map (ACPI
  specification, section 15.1), proved against the set of free pages, and what it supplies to the page tables.
- **Processes and IPC** (`ProcessModel`, `ProcessForest`, `ProcessRuns`, `ProcessTables`, `IpcModel`,
  `IpcDelivery`, `IpcObjects`, `KernelRuns`): one kernel state of 32 process slots and a pool of endpoints,
  every system call a step; wakeups, message order, ancestry, termination, reaping and fairness over all runs.
- **Agent loop and checkpoint log** (`AgentLoopModel`, `AgentLoopRuns`, `AgentLoopRepeats`, `AgentLoop`,
  `CheckpointLog`): the loop cut at its lasting effects, with a crash between any two, and the append-only log it
  saves to. `executed` counts since the task was last started afresh; `past` keeps what came before.
- **Supervisor** (`ServiceOrder`, `SupervisorModel`, `SupervisorRuns`, `SupervisorRuntime`): the start order and
  the life cycle whose event streams an independent validator accepts.
- **ELF loader** (`ElfLoader`) and **initrd** (`Initrd`), over little-endian fields (`LittleEndian`): planner and
  copy loop (System V gABI, chapter 5), and a byte format written in Python and read in C.

Each mechanism comes as a specification on values, lemmas about every run of it, and, where the source works
by updating state, a class or a method whose contract equates its new state with the specification.
`hide` statements only shorten proofs.

Claims one might expect that are false, with the exact condition proved instead:

- A receiver that passed a null buffer can sleep while its endpoint holds a message, and only such a one
  (`KernelRuns.QueuedSendStrandsOnlyNullBuffers`, `KernelRuns.NullBufferSleepsThroughNews`).
- A free page is handed out as often as the memory map lists it, while the range table has room
  (`PhysAllocators.HandsOutPerListing`, `PhysAllocators.RepeatedEntryIsHandedOutTwice`).
- A started service can hold handles that never validate: exactly when its generation had been revoked
  (`SupervisorRuns.StartGrantsAllOrNothing`, `SupervisorRuns.StopSpendsTheGeneration`,
  `SupervisorRuns.StopThenStartLosesTheRights`).
- An action can run twice: exactly after a crash between its execution and the checkpoint that settles it
  (`AgentLoopRepeats.CrashRepeatsExactlyWhenUnsettled`, `AgentLoopRepeats.CrashRepeatsExactlyInTheWindow`,
  `AgentLoopRuns.InterruptedActionRunsAgain`), and a committed one exactly when the task is started afresh
  instead of recovered (`AgentLoopRepeats.CommittedRunsAgainExactlyByFreshStart`,
  `AgentLoopRuns.StartingAfreshRunsItAgain`).
- A destroyed endpoint can be reached again, exactly when something mints its object anew
  (`CapabilitySweep.DestroyedObjectComesBackOnlyByMinting`), as the restart of a process that had saved it does
  (`CapabilityRestart.RestartBringsItBack`).
- Revoked authority can come back with a restart: a process gains something it could not use before exactly when
  one of the first sixteen active entries of its table hangs below something revoked and no live entry carries the
  same object and rights, because the snapshot (product/kernel/src/process.c:58-69) copies what is active and does
  not walk the lineage (`CapabilityRestart.RestartRevivesExactly`, `CapabilityRestart.RevokedComesBack`).
- The builder writes a container for an empty image; the reader refuses it, and only that
  (`Initrd.ReadsWhatWasBuilt`).

## Model

| member | source | states |
|---|---|---|
| CapabilityModel.HandleRoundTrip | product/kernel/src/capability_table.c:3-17 | slot and generation come back out of a handle, and no handle is zero |
| CapabilityModel.FreeSlot | product/kernel/src/capability_table.c:130-137 | the slot taken is the first that is neither active nor permanently retired |
| CapabilityLineage.LinkExact | product/kernel/src/capability_table.c:32-61 | the stored parent link of a live entry is intact exactly when the recorded parent has not been retired |
| CapabilityLineage.WalkExact | product/kernel/src/capability_table.c:38-65 | the upward walk succeeds exactly when nothing above the entry was ever retired; the 64-hop guard never rejects a live chain |
| CapabilityLineage.ValidateExact | product/kernel/src/capability_table.c:19-73 | under the lineage invariant a handle validates exactly when it was issued in the current incarnation and its whole recorded lineage is alive |
| CapabilityLineage.ValidExactlyWhenLineageAlive | product/kernel/src/capability_table.c:19-73 | over every run on any set of tables: lazy validation accepts exactly the handles whose recorded ancestors are all alive |
| CapabilityLineage.RetiredForever | product/kernel/src/capability_table.c:84-122 | once an ancestor is retired no later run, slot reuse and table re-initialisation included, makes a descendant valid again |
| CapabilityLineage.AuthorityConfined | product/kernel/src/capability_table.c:169-244 | a successful lookup names the object of the root mint, grants no right any ancestor lacked, and its lineage is acyclic, of the stored depth, at most 65 long |
| CapabilityLineage.DeriveExact | product/kernel/src/capability_table.c:192-244 | from a live source with enough rights restrict and transfer fail exactly when the chain is full or the target table is |
| CapabilityLineage.RevokeEndsExactlyTheSubtree | product/kernel/src/capability_table.c:246-272 | revoking a handle ends exactly the handles, in every table, that descend from it |
| CapabilityLineage.RevokeObjectEndsItsLineages | product/kernel/src/capability_table.c:274-292 | retiring an object in one table ends exactly the lineages of that object that pass through the table |
| CapabilityLineage.StepKeeps | product/kernel/src/capability_table.c:84-292 | every operation, successful or refused, keeps the lineage invariant |
| CapabilityLineage.RunKeeps | product/kernel/src/capability_table.c:84-292 | the lineage invariant holds after every run |
| CapabilityTables.CapabilityTable.Init | product/kernel/src/capability_table.c:84-106 | the table becomes fresh under a never-zero incarnation drawn from the counter; no other table changes |
| CapabilityTables.CapabilityTable.ValidateHandle | product/kernel/src/capability_table.c:19-73 | the loop over parent pointers answers what the recursive walk over the whole world of tables answers |
| CapabilityTables.CapabilityTable.LookupHandle | product/kernel/src/capability_table.c:169-190 | status, object and rights are those of the specification, nothing is written |
| CapabilityTables.CapabilityTable.MintWithParent | product/kernel/src/capability_table.c:124-156 | exactly the first free slot is filled, with the given link, or nothing changes |
| CapabilityTables.CapabilityTable.MintRoot | product/kernel/src/capability_table.c:158-167 | a parentless entry in the first free slot, refused for unknown rights or a zero object |
| CapabilityTables.CapabilityTable.RestrictHandle | product/kernel/src/capability_table.c:192-213 | the new world and the answer are those of one derivation inside the table |
| CapabilityTables.CapabilityTable.TransferHandle | product/kernel/src/capability_table.c:215-244 | the new world and the answer are those of one derivation into another table, the same table object included |
| CapabilityTables.CapabilityTable.RevokeHandle | product/kernel/src/capability_table.c:246-272 | one slot is retired and its generation bumped, in this table only |
| CapabilityTables.CapabilityTable.RevokeNaming | product/kernel/src/capability_table.c:274-292 | exactly the active entries naming the object are retired and counted |
| CapabilityTables.CapabilityTable.RevokeEvery | product/kernel/src/capability_table.c:108-122 | exactly the active entries are retired |
| CapabilityTables.CapabilityTable.SaveActive | product/kernel/src/process.c:58-69 | the loop over the slots saves object and rights of the first sixteen active ones, in order |
| CapabilityTables.CapabilityTable.MintSaved | product/kernel/src/process.c:434-443 | the loop mints what was saved as roots up to the first refusal, in this table only |
| PteBits.LeafDecodes | product/kernel/src/address_space.c:32-44 | address and permission bits of a leaf word survive, and a lookup shows the mapping flags with READ added |
| PteBits.LinkDecodes | product/kernel/src/address_space.c:69-92 | a link word keeps its table address; no permission bit spills into it |
| PteBits.WriteXorExecuteMask | product/kernel/src/address_space.c:162-167 | the mask test for write-and-execute asks for both bits, no more and no less |
| PageTables.InstallKeeps | product/kernel/src/address_space.c:69-127 | filling a page, through however many new tables, keeps tree shape, USER on every link above a USER leaf, and no leaf both writable and executable |
| PageTables.InstallSeen | product/kernel/src/address_space.c:94-127 | the flat map of every tree changes only where its walk ends in the very cell just filled |
| PageTables.InstallOutcome | product/kernel/src/address_space.c:69-127 | when no table is missing the walk decides between busy, denied and done |
| MapOutcome.InstallSucceeds | product/kernel/src/address_space.c:69-127 | one page goes in exactly if it is free, not barred and the missing tables can be had; it takes just those from the allocator |
| MapOutcome.InstallTables | product/kernel/src/address_space.c:69-127 | installing a page adds the tables on its own way and no other, and changes for no page whether its way is barred |
| PageTables.UserWalkExact | product/kernel/src/address_space.c:94-127 | the checking walk reaches a USER leaf exactly when the flat map holds one, and reaches nothing else |
| PageTables.SeenIsWriteXorExecute | product/kernel/src/address_space.c:162-167 | no flat map ever shows a page both writable and executable, or a large page |
| PageTables.SharedLinkSharesMap | product/kernel/src/address_space.c:140-148 | two roots with the same present top entry show the same map below it, now and after any growth |
| AddressSpaces.PathShifts | product/kernel/src/address_space.c:94-100 | the four shifted and masked indices are the base-512 digits of the page number |
| AddressSpaces.PathRebuilds | product/kernel/src/address_space.c:20-26 | a canonical page is rebuilt from its four indices |
| AddressSpaces.PathInjective | product/kernel/src/address_space.c:94-100 | distinct canonical pages take distinct paths |
| AddressSpaces.LookupIsSeen | product/kernel/src/address_space.c:200-217 | lookup returns the flat map entry of the page |
| AddressSpaces.MapExact | product/kernel/src/address_space.c:150-198 | after a map call the flat map is the old one plus exactly the mapped prefix, each page with its frame and flags; success maps all, failure records no region |
| MapOutcome.MapSucceedsExactly | product/kernel/src/address_space.c:150-198 | a map call succeeds exactly if its arguments pass, every page of the range is free, no present link on the way lacks USER when USER is asked, and the next answers of the allocator are as many pages as tables are missing |
| MapOutcome.ReachableMapSucceeds | product/kernel/src/address_space.c:150-198 | the same in every reachable system |
| AddressSpaces.MapIsolated | product/kernel/src/address_space.c:150-198 | a lower-half map never changes a lookup in another space |
| AddressSpaces.UserRangeExact | product/kernel/src/address_space.c:219-238 | the range check passes exactly when the range is non-empty, below the limit and every touched page is mapped with USER and the asked permission |
| AddressSpaces.ReachableMapExact | product/kernel/src/address_space.c:150-198 | in every reachable system a map call does exactly what the flat maps promise, to its own space and to every other |
| AddressSpaces.ReachableCreateIsolated | product/kernel/src/address_space.c:129-148 | in every reachable system: creating a space changes no lookup of any that exists, and if it succeeds the new one shows the upper half of its template page by page and nothing else |
| AddressSpaces.SharedForever | product/kernel/src/address_space.c:129-148 | upper-half slots present when a space was created resolve the same in all sharers after any later run |
| AddressSpaces.ReachableChecksExact | product/kernel/src/address_space.c:219-262 | in every reachable system the range check is exact and validate succeeds |
| AddressSpaces.ReachablePagesSafe | product/kernel/src/address_space.c:162-190 | in every reachable system no page is writable and executable, and a walk to a user page finds USER at all four levels |
| AddressSpaceObjects.PageMemory.NewTable | product/kernel/src/address_space.c:46-67 | a zeroed frame joins the tables, or the refusal of the allocator comes back |
| AddressSpaceObjects.PageMemory.Child | product/kernel/src/address_space.c:69-92 | the child table is found, made, or refused exactly as specified |
| AddressSpaceObjects.PageMemory.WalkToPte | product/kernel/src/address_space.c:94-127 | the walk down four levels ends where the recursive descent ends |
| AddressSpaceObjects.PageMemory.InstallAt | product/kernel/src/address_space.c:174-190 | one page is installed in place, or memory is as the specification leaves it |
| AddressSpaceObjects.AddressSpace.Create | product/kernel/src/address_space.c:129-148 | a new root with the template's upper-half entries, or the refusal |
| AddressSpaceObjects.AddressSpace.MapRegion | product/kernel/src/address_space.c:150-198 | argument checks, the loop and the region list together give the specified status, memory and regions |
| AddressSpaceObjects.AddressSpace.MapLoop | product/kernel/src/address_space.c:174-190 | the offset loop installs page after page until one is refused |
| AddressSpaceObjects.AddressSpace.LookupAddress | product/kernel/src/address_space.c:200-217 | an aligned address gives the physical address of its frame and the shown flags, or the refusal of the walk |
| AddressSpaceObjects.AddressSpace.CheckUserRange | product/kernel/src/address_space.c:219-238 | the cursor loop answers what the specification answers over all touched pages |
| AddressSpaceObjects.AddressSpace.CheckRegions | product/kernel/src/address_space.c:240-262 | the loop over the regions accepts exactly the lists the recursive check accepts |
| PhysAllocators.PhysAllocator.Init | product/kernel/src/physmem.c:23-65 | every range is aligned and free; with a slot to spare the ranges cover every free page of every entry |
| PhysAllocators.PhysAllocator.NextHole | product/kernel/src/physmem.c:41-56 | the reserved range that blocks the cursor first, or none before the end |
| PhysAllocators.PhysAllocator.CarveStep | product/kernel/src/physmem.c:41-62 | one gap is cut off and the cursor moves behind the hole; no page of the hole is offered, none outside it lost |
| PhysAllocators.PhysAllocator.Add | product/kernel/src/physmem.c:15-21 | a range joins if a slot is left and it is not empty; what it covers is accounted for |
| PhysAllocators.PhysAllocator.AllocPage | product/kernel/src/physmem.c:67-77 | hands out the first pending page, or zero and then zero for ever |
| PhysAllocators.TouchesIsPageRun | product/kernel/src/physmem.c:45-50 | the pages a reserved range touches are exactly the run between its rounded ends |
| PhysAllocators.PagesExact | product/kernel/src/physmem.c:67-77 | the pages the ranges will hand out are the aligned addresses they cover |
| PhysAllocators.OffersExactlyTheFreePages | product/kernel/src/physmem.c:23-65 | only free pages are offered; if fewer than sixteen ranges were cut, all of them are |
| PhysAllocators.HandsOutOnceIffEntriesApart | product/kernel/src/physmem.c:67-77 | no page is ever handed out twice if no free page lies in two entries, and with a range slot to spare only if so |
| PhysAllocators.HandsOutPerListing | product/kernel/src/physmem.c:23-77 | page by page: never handed out more often than it is listed as free, and with a range slot to spare exactly as often |
| PhysAllocators.RepeatedPageIsListedTwice | product/kernel/src/physmem.c:23-77 | a page handed out twice is free in two different entries, even when the range table is full |
| PhysAllocators.RepeatedEntryIsHandedOutTwice | product/kernel/src/physmem.c:23-77 | booted on a map that lists the same free page twice, two calls hand out that page both times |
| PhysAllocators.DrainInOrder | product/kernel/src/physmem.c:67-77 | successive calls give the pending pages in order and zero ever after |
| FrameSupply.AllocatorSuppliesFreshFrames | product/kernel/src/vm.c:60-76 | the answers of the allocator, drained however often, are a supply of frames that never repeats, as the page-table theorems ask |
| ProcessModel.IdRoundTrip | product/kernel/src/process.c:3-14 | slot and generation come back out of a process id |
| ProcessForest.ChainFitsTable | product/kernel/src/process.c:287-296 | along parent links births fall, so no slot repeats and no chain is longer than the table |
| ProcessForest.WalkIsAncestry | product/kernel/src/process.c:287-296 | the 32-step walk decides the ancestor relation |
| ProcessForest.AncestryAcyclic | product/kernel/src/process.c:287-296 | no process is its own ancestor |
| ProcessRuns.StepKeeps | product/kernel/src/process.c:86-491 | every process operation keeps the forest, the single running slot and the live count |
| KernelRuns.TableSound | product/kernel/src/process.c:16-40 | in every reachable table at most the current slot runs, the live count is the number of slots in use, and the id of a used slot resolves to that slot |
| KernelRuns.AncestryDecided | product/kernel/src/process.c:287-296 | in every reachable table the bounded walk is the ancestor relation, and acyclic |
| KernelRuns.TerminateTreeExact | product/kernel/src/process.c:298-312 | terminating a tree ends exactly the live group members that descended from the caller before the call, and returns their number |
| KernelRuns.ReapedForever | product/kernel/src/process.c:464-491 | an id that was issued and reaped never resolves again, whatever happens to its slot |
| KernelRuns.TurnComes | product/kernel/src/process.c:184-207 | a process that stays ready is chosen within 32 schedule calls as long as nothing but scheduling moves the current slot |
| KernelRuns.TurnComesAfterDrops | product/kernel/src/process.c:184-207 | over any run, a process that stays ready is passed over at most as often as its distance in the scan, and 32 times more for each time the current slot is dropped otherwise |
| ProcessTables.ProcessTable.NewProcess | product/kernel/src/process.c:86-132 | the first unused slot is filled under a new id, or nothing changes |
| ProcessTables.ProcessTable.RunNext | product/kernel/src/process.c:184-207 | the round-robin scan picks the next ready slot around the table |
| ProcessTables.ProcessTable.SwitchTo | product/kernel/src/process.c:192-205 | the running slot goes back to ready, the chosen one runs and is current, nothing else changes |
| ProcessTables.ProcessTable.EndProcess | product/kernel/src/process.c:221-261 | the process becomes a zombie; the current index is dropped if it was current |
| ProcessTables.ProcessTable.IsDescendant | product/kernel/src/process.c:287-296 | the loop of at most 32 hops answers what the recursion answers |
| ProcessTables.ProcessTable.TerminateGroup | product/kernel/src/process.c:263-312 | the scan that mutates as it goes leaves the table that ending all the doomed of the first table at once leaves |
| ProcessTables.ProcessTable.RestartProcess | product/kernel/src/process.c:414-462 | a zombie runs again under its id, or stays a zombie with its wait cleared when re-minting fails |
| ProcessTables.ProcessTable.ReapChild | product/kernel/src/process.c:464-491 | the first matching zombie child is cleared, its generation bumped, the live count lowered |
| IpcObjects.Mailbox.Open | product/kernel/src/ipc_endpoint.c:13-37 | an empty, open, active endpoint with sequence one |
| IpcObjects.Mailbox.Close | product/kernel/src/ipc_endpoint.c:39-45 | closed with its contents kept, or refused if inactive |
| IpcObjects.Mailbox.Destroy | product/kernel/src/ipc_endpoint.c:47-60 | empty, closed and inactive, or refused if inactive |
| IpcObjects.Mailbox.Put | product/kernel/src/ipc_endpoint.c:62-91 | the ring gains the message at its end under its sequence number, or the refusal leaves it as it was |
| IpcObjects.Mailbox.Get | product/kernel/src/ipc_endpoint.c:93-105 | the oldest message leaves the ring; an empty ring answers closed or timeout |
| IpcDelivery.DeliverExact | product/kernel/src/kernel.c:827-894 | the delivery loop serves the oldest waiter whose handle and buffer still hold, fails exactly the older ones, touches nobody else, and terminates |
| KernelRuns.SendServesTheOldest | product/kernel/src/kernel.c:827-894 | every send in every reachable kernel goes to the oldest waiter whose handle and buffer still hold, fails exactly the older ones and touches nobody else |
| KernelRuns.MessagesInOrder | product/kernel/src/kernel.c:794-991 | per endpoint lifetime, what receivers got, by hand-off or from the ring, is a prefix in order of what was accepted; the rest is what is queued |
| KernelRuns.NobodySleepsThroughNews | product/kernel/src/kernel.c:88-108 | in every reachable kernel a blocked process waits on an active open endpoint, which is empty unless the waiter passed a null buffer |
| KernelRuns.QueuedSendStrandsOnlyNullBuffers | product/kernel/src/kernel.c:827-894 | a send that queues leaves somebody asleep there if and only if somebody sleeps there with a null buffer |
| KernelRuns.NullBufferSleepsThroughNews | product/kernel/src/kernel.c:938-990 | a concrete run in which a receiver with a null buffer sleeps on a non-empty endpoint |
| KernelRuns.StepKeeps | product/kernel/src/kernel.c:690-991 | every kernel step keeps the table, the queues and the no-lost-wakeup condition |
| IpcObjects.IpcKernel.WakeWaiters | product/kernel/src/kernel.c:99-108 | every waiter of the endpoint, and nobody else, becomes ready with the result |
| IpcObjects.IpcKernel.DeliverTo | product/kernel/src/kernel.c:827-894 | the loop of passes over the table gives the specified table and taker |
| IpcObjects.IpcKernel.SysCreate | product/kernel/src/kernel.c:690-734 | the first inactive pool slot past slot zero is opened, and closed again if its capability cannot be minted |
| IpcObjects.IpcKernel.SysDestroy | product/kernel/src/kernel.c:735-769 | endpoint destroyed, waiters woken, slot zero refused |
| CapabilitySweep.DestroyedObjectEndsItsHandles | product/kernel/src/kernel.c:735-769 | once the destroyed object has been retired in every table in use, a handle that reaches it after any later run descends only from capabilities handed out after that |
| CapabilitySweep.DestroyedObjectComesBackOnlyByMinting | product/kernel/src/kernel.c:735-769 | after such a sweep no handle in any table reaches the object until it is minted again, and then one does |
| CapabilityRestart.RestartExact | product/kernel/src/process.c:58-69 | in every reachable state, for a clean exit, anything at all in between and a restart: it goes through exactly if as many slots can be filled as were saved, and then adds exactly the first sixteen active entries the exit found |
| CapabilityRestart.RestartRevivesExactly | product/kernel/src/process.c:58-69 | a restart straight after a clean exit lets the process use something it could not before exactly if one of the first sixteen active entries hangs below something revoked and nothing else in the table still carries the same object and rights |
| CapabilityRestart.RevokedComesBack | product/kernel/src/process.c:414-443 | for any object and rights: one table hands a capability to another and revokes its own; the other cannot use it, exits cleanly, restarts, and can |
| CapabilityRestart.RestartBringsItBack | product/kernel/src/process.c:414-443 | in every reachable state: after an object is destroyed in every table in use no handle reaches it, and the restart of a process that had saved it brings it back |
| CapabilityRestart.RemintSucceeds | product/kernel/src/process.c:434-443 | the minting loop goes through exactly if there are as many slots neither active nor permanently retired as capabilities saved |
| CapabilityRestart.SnapshotExact | product/kernel/src/process.c:58-69 | what is saved is exactly what the first sixteen active slots name |
| IpcObjects.IpcKernel.SysClose | product/kernel/src/kernel.c:770-793 | the endpoint is closed with its messages kept, and exactly its waiters wake with the cancelled result |
| IpcObjects.IpcKernel.SysCall | product/kernel/src/kernel.c:794-903 | a send is refused, handed to the oldest waiter that can take it, or put into the ring, in that order |
| IpcObjects.IpcKernel.SysReceive | product/kernel/src/kernel.c:904-937 | dequeue, or the specified refusal, without blocking |
| IpcObjects.IpcKernel.SysReceiveWait | product/kernel/src/kernel.c:938-990 | dequeue, or block the running process with the next wait number |
| CheckpointLog.RecoversWritten | product/agent-runtime/reference/pi_runtime.js:120-141 | reopening an intact file gives exactly the map and the next sequence number |
| CheckpointLog.PrefixEndsWithRecord | product/agent-runtime/reference/pi_runtime.js:126-127 | a byte prefix of a written file that ends in a newline ends with a whole record |
| CheckpointLog.AnyPrefixReopens | product/agent-runtime/reference/pi_runtime.js:120-141 | reopening any byte prefix is refused exactly when the tail is cut inside a record, and otherwise yields the map after a whole number of calls |
| CheckpointLog.SplitWritten | product/agent-runtime/reference/pi_runtime.js:127-129 | splitting a written file at newlines gives back the encoded records |
| CheckpointLog.DurableCheckpointStore.Open | product/agent-runtime/reference/pi_runtime.js:105-118 | from any prefix of another store's file: nothing, or a store whose log is a prefix of that history |
| CheckpointLog.DurableCheckpointStore.ReadBack | product/agent-runtime/reference/pi_runtime.js:120-141 | the line loop recovers what the specification recovers, or refuses |
| CheckpointLog.DurableCheckpointStore.Append | product/agent-runtime/reference/pi_runtime.js:143-152 | the file stays the written form of the log and the numbering contiguous |
| CheckpointLog.DurableCheckpointStore.SaveSnapshot | product/agent-runtime/reference/pi_runtime.js:154-158 | log and map gain the record together |
| CheckpointLog.DurableCheckpointStore.RemoveSnapshot | product/agent-runtime/reference/pi_runtime.js:164-169 | log and map lose the task together, or nothing is written |
| CheckpointLog.DurableCheckpointStore.Load | product/agent-runtime/reference/pi_runtime.js:160-162 | the snapshot the replayed log ends with |
| AgentLoopRuns.EveryRunKeepsTheBooks | product/agent-runtime/reference/pi_runtime.js:326-422 | over every run with crashes anywhere: confirmed executions are covered action by action by consumed approvals; the saved journal commits exactly the first cursor actions of the saved plan in order; each committed action ran, each execution was announced in the saved journal first |
| AgentLoopRuns.CommittedNeverRunsAgain | product/agent-runtime/reference/pi_runtime.js:456-480 | without a start that takes effect, no later run executes a committed action again; commits and events in checkpoints only grow |
| AgentLoopRepeats.CommittedRunsAgainExactlyByFreshStart | product/agent-runtime/reference/pi_runtime.js:279-306 | from every reachable checkpoint with a commit: no run without a fresh start executes the committed action again, and some run with one does |
| AgentLoopRuns.OnceUnlessCrashedInTheWindow | product/agent-runtime/reference/pi_runtime.js:378-402 | nothing runs twice unless a crash falls between an execution and the checkpoint that settles it |
| AgentLoopRepeats.CrashRepeatsExactlyWhenUnsettled | product/agent-runtime/reference/pi_runtime.js:378-402 | in every reachable state a crash lets some action run again, with no fresh start, if and only if the next action of an unfinished checkpoint has already run |
| AgentLoopRepeats.CrashRepeatsExactlyInTheWindow | product/agent-runtime/reference/pi_runtime.js:378-402 | in a run with no earlier such crash, that is so if and only if the crash falls between an execution and the checkpoint that settles it |
| AgentLoopRepeats.RunsNext | product/agent-runtime/reference/pi_runtime.js:326-422 | from every consistent state, whatever the checkpoint of an unfinished task is (paused, waiting, half done): after a crash some run without a start executes its next action and nothing else |
| AgentLoopRuns.InterruptedActionRunsAgain | product/agent-runtime/reference/pi_runtime.js:378-402 | a concrete run in which such a crash makes an action run twice |
| AgentLoopRuns.StartingAfreshRunsItAgain | product/agent-runtime/reference/pi_runtime.js:279-306 | a concrete run in which starting a crashed task again, instead of recovering it, repeats a committed action |
| AgentLoopRuns.MicroKeeps | product/agent-runtime/reference/pi_runtime.js:326-491 | every step and every crash keeps checkpoint, memory and outside world consistent |
| AgentLoopRuns.MicroOnwards | product/agent-runtime/reference/pi_runtime.js:326-491 | no step takes a plan, a cursor or an event back, except a start that takes effect; a refused start changes nothing |
| AgentLoop.TaskRecord.Emit | product/agent-runtime/reference/pi_runtime.js:207-225 | the event is numbered, logged and pending; too many pending ones pause an active task |
| AgentLoop.TaskRecord.Acknowledge | product/agent-runtime/reference/pi_runtime.js:428-432 | exactly the events past the sequence number stay pending |
| AgentLoop.PiAgentLoop.Fail | product/agent-runtime/reference/pi_runtime.js:259-265 | the record fails with an event and is saved |
| AgentLoop.PiAgentLoop.Heartbeat | product/agent-runtime/reference/pi_runtime.js:267-277 | the beat is noted, announced and saved |
| AgentLoop.PiAgentLoop.Enter | product/agent-runtime/reference/pi_runtime.js:326-331 | a terminal, waiting or paused task returns at once; another beats |
| AgentLoop.PiAgentLoop.TakePlan | product/agent-runtime/reference/pi_runtime.js:332-354 | a malformed, refused or repeated answer fails the task; a plan is stored once and saved |
| AgentLoop.PiAgentLoop.Prepare | product/agent-runtime/reference/pi_runtime.js:356-386 | the decision is carried out: failure, a saved approval request, or a saved announcement with the approval spent |
| AgentLoop.PiAgentLoop.MarkRollback | product/agent-runtime/reference/pi_runtime.js:390-394 | the announced entry is marked and saved before the task fails |
| AgentLoop.PiAgentLoop.CommitAction | product/agent-runtime/reference/pi_runtime.js:395-401 | entry and cursor move together and are saved |
| AgentLoop.PiAgentLoop.Continue | product/agent-runtime/reference/pi_runtime.js:326-409 | step() from its first statement is a run of the step model, whatever model, policy, executor and crashes do |
| AgentLoop.PiAgentLoop.Actions | product/agent-runtime/reference/pi_runtime.js:356-409 | the loop over the plan is such a run and ends idle |
| AgentLoop.PiAgentLoop.PerformAction | product/agent-runtime/reference/pi_runtime.js:356-403 | one action is such a run; if it goes on, exactly the cursor has moved |
| AgentLoop.PiAgentLoop.StartTask | product/agent-runtime/reference/pi_runtime.js:279-306 | a start of an unknown task, then a whole step |
| AgentLoop.PiAgentLoop.StepTask | product/agent-runtime/reference/pi_runtime.js:326-409 | a whole step of a known task |
| AgentLoop.PiAgentLoop.ApproveTask | product/agent-runtime/reference/pi_runtime.js:411-422 | succeeds exactly for the task waiting with that token when the policy consumes it; then a whole step |
| AgentLoop.PiAgentLoop.AckThrough | product/agent-runtime/reference/pi_runtime.js:428-439 | acknowledged events go; a task paused for backpressure resumes when there is room |
| AgentLoop.PiAgentLoop.MonitorTask | product/agent-runtime/reference/pi_runtime.js:441-447 | a silent active task fails |
| AgentLoop.PiAgentLoop.CheckpointTask | product/agent-runtime/reference/pi_runtime.js:449-454 | an announced save |
| AgentLoop.PiAgentLoop.CancelTask | product/agent-runtime/reference/pi_runtime.js:482-491 | a task not yet over is cancelled and saved |
| AgentLoop.PiAgentLoop.RecoverTask | product/agent-runtime/reference/pi_runtime.js:456-480 | the record is rebuilt from the checkpoint if memory has none |
| ServiceOrder.ComputeOrder | product/services/supervisor_runtime.py:177-195 | an order exists exactly when the dependency graph has no cycle; then it lists every service once after all it depends on and comes first by name among all such orders |
| ServiceOrder.CollectUsers | product/services/supervisor_runtime.py:178-182 | the dependency lists turned around, each user once |
| ServiceOrder.TakeNext | product/services/supervisor_runtime.py:185-192 | taking the first ready service keeps the ready list sorted and complete and the counts exact |
| ServiceOrder.GreedyIsLeast | product/services/supervisor_runtime.py:183-192 | a complete order that always takes the first ready name is topological and no topological order precedes it |
| ServiceOrder.StuckMeansCycle | product/services/supervisor_runtime.py:193-194 | when nothing is ready and something is left, the left services contain a cycle |
| ServiceOrder.CycleHasNoOrder | product/services/supervisor_runtime.py:193-194 | a graph with a cycle has no topological order |
| SupervisorRuns.GenerationsCountRestarts | product/services/supervisor_runtime.py:319-331 | over every run a started service has generation one plus its restarts, within its policy |
| SupervisorRuns.GrantsAreTheHeldHandles | product/services/supervisor_runtime.py:374-390 | over every run the grant table's keys are the handles services hold, and a check passes exactly for a held, unrevoked handle and a listed right |
| SupervisorRuns.RevokedForever | product/services/supervisor_runtime.py:382-390 | a handle once revoked never passes a check again |
| SupervisorRuns.StartGrantsAllOrNothing | product/services/supervisor_runtime.py:241-264 | over every run, a start makes all capabilities usable exactly when no handle of its generation was revoked, else none; a first start and a start after a scheduled restart grant all |
| SupervisorRuns.StopSpendsTheGeneration | product/services/supervisor_runtime.py:362-372 | stopping a service that held its handles and starting it again brings back only revoked handles |
| SupervisorRuns.StopThenStartLosesTheRights | product/services/supervisor_runtime.py:362-372 | in every setting, for every right of every service: usable after a start; after start, stop, start the service holds the same handle and the right is refused |
| SupervisorRuns.RestartIsFresh | product/services/supervisor_runtime.py:319-331 | a scheduled restart begins a generation with no revoked handle |
| SupervisorRuns.StepKeeps | product/services/supervisor_runtime.py:213-404 | every call keeps records, grants, revocations and streams consistent |
| SupervisorRuntime.Supervisor.Emit | product/services/supervisor_runtime.py:213-228 | one event, numbered, stamped no earlier than the last, with the generation |
| SupervisorRuntime.Supervisor.Start | product/services/supervisor_runtime.py:241-264 | accepted exactly when group, dependencies and due time allow; then nonce, grants and event |
| SupervisorRuntime.Supervisor.MarkReady | product/services/supervisor_runtime.py:266-275 | a starting service with matching generation and nonce becomes ready |
| SupervisorRuntime.Supervisor.TakeHeartbeat | product/services/supervisor_runtime.py:277-288 | accepted exactly for the current generation and nonce of a running service |
| SupervisorRuntime.Supervisor.FreezeMembers | product/services/supervisor_runtime.py:290-303 | every member of the group that is not out, except the excluded one, is frozen once |
| SupervisorRuntime.Supervisor.Freeze | product/services/supervisor_runtime.py:305-306 | the group is barred and its members frozen |
| SupervisorRuntime.Supervisor.Unfreeze | product/services/supervisor_runtime.py:308-317 | the bar is lifted and frozen members become ready |
| SupervisorRuntime.Supervisor.Schedule | product/services/supervisor_runtime.py:319-331 | the next generation under a new nonce within the policy, or no due time |
| SupervisorRuntime.Supervisor.ReportFault | product/services/supervisor_runtime.py:333-347 | handles revoked, peers frozen, restart if the policy allows |
| SupervisorRuntime.Supervisor.ReportExit | product/services/supervisor_runtime.py:349-360 | handles revoked, peers frozen, restart only if always |
| SupervisorRuntime.Supervisor.Stop | product/services/supervisor_runtime.py:362-372 | both events, handles revoked, peers frozen, no restart |
| SupervisorRuntime.Supervisor.MintCapabilities | product/services/supervisor_runtime.py:374-380 | the loop grants exactly the manifest's capabilities under the current generation |
| SupervisorRuntime.Supervisor.RevokeCapabilities | product/services/supervisor_runtime.py:382-386 | the loop revokes exactly the held handles |
| SupervisorRuntime.Supervisor.OnTick | product/services/supervisor_runtime.py:392-404 | service by service: what is due starts, what is silent faults |
| SupervisorRuntime.Supervisor.StartEach | product/services/supervisor_runtime.py:236-239 | every service started in the computed order |
| SupervisorRuns.EveryStreamIsAccepted | product/services/validate_supervisor_protocol.py:55-72 | over every run the validator's check accepts every event of every service after the one before it |
| ElfLoader.PlanExact | product/kernel/src/elf_user_loader.c:46-98 | a plan is accepted exactly for a valid header, one to sixteen loadable headers each in order and no two on a common page, and an entry in file-backed executable bytes |
| ElfLoader.PlanSafe | product/kernel/src/elf_user_loader.c:46-98 | whatever the image, accepted segments are page-disjoint, below the user limit, backed by the image, never writable and executable |
| ElfLoader.RoundedIsMappedEnd | product/kernel/src/elf_user_loader.c:39-44 | a rounding that does not overflow is the first page boundary at or after the address |
| ElfLoader.PlanWithBias | product/kernel/src/elf_user_loader.c:46-98 | header checks, scan and entry search together give the specified plan or refusal |
| ElfLoader.ScanPrograms | product/kernel/src/elf_user_loader.c:69-88 | the loop over program headers stops at the first refusal, with its status |
| ElfLoader.TryProgram | product/kernel/src/elf_user_loader.c:74-88 | one header against the segments so far, byte and page overlaps alike |
| ElfLoader.Load | product/kernel/src/elf_user_loader.c:112-131 | a refusal leaves memory untouched; success leaves each segment's file bytes and zeros to the page end in place and every other byte as it was |
| ElfLoader.CopySegment | product/kernel/src/elf_user_loader.c:122-128 | exactly the bytes of the segment's pages are replaced |
| ElfLoader.AllFit | product/kernel/src/elf_user_loader.c:117-121 | true exactly when every segment's pages lie in the memory window |
| Initrd.SelectService | product/kernel/src/initrd.c:8-56 | the entry loop selects the window of the specification, or refuses |
| Initrd.NothingWraps | product/kernel/src/initrd.c:19-52 | no 32-bit sum or product formed by the checks wraps |
| Initrd.SelectedInside | product/kernel/src/initrd.c:36-56 | for any bytes an accepted image is non-empty, behind the table, inside the service area and the container |
| Initrd.ReadsWhatWasBuilt | product/tools/make-initrd.py:49-68 | the reader finds exactly the image written for every index below the count when the image is not empty, and nothing otherwise |
| Initrd.ManifestReadBack | product/tools/make-initrd.py:49-68 | the manifest lies where the header says, as it was given |
| Initrd.HeaderReadBack | product/tools/make-initrd.py:63-65 | every header field is read back as packed |
| Initrd.EntryReadBack | product/tools/make-initrd.py:59-62 | every entry field is read back as packed |

## Left out

- CapabilityLineage.ValidExactlyWhenLineageAlive: assumes fewer table initialisations than the 64-bit incarnation counter has values; the wrap itself is in the model, and so is the slot that retires when its 32-bit generation wraps.
- CapabilityLineage.RetiredForever: the same assumption; a table outside the modelled set stands for a null pointer, and zeroing a table when its process is reaped is a step of its own.
- CapabilitySweep.DestroyedObjectEndsItsHandles: the same assumption.
- CapabilityRestart.RestartExact: the same assumption; the first handle, which a restart passes in two registers, is not modelled.
- AddressSpaces.ReachableMapExact: assumes the supply of frames is fresh; FrameSupply.AllocatorSuppliesFreshFrames gives that for the page allocator, while the static page pool the kernel falls back to and the identity-map limit are not part of this model.
- KernelRuns.MessagesInOrder: compares messages without their sequence field, which a direct hand-off does not renumber; the run theorems about the kernel assume fewer reaps than a process generation has values, and wait numbers that do not wrap.
- ProcessTables.ProcessTable.RestartProcess: whether the saved capabilities can be minted again is a parameter of the process table; CapabilityRestart.RemintSucceeds says when they can.
- ProcessTables.ProcessTable.EndProcess: exit, clean exit and kill differ only in the capabilities they keep or revoke, and those are not coupled to the process table here; what clean exit saves and ends is in CapabilityRestart.
- IpcObjects.IpcKernel.SysCall: whether a waiter's capability and buffer still hold, and whether the copy succeeds, is one verdict per waiter; message validation and the copied bytes beyond opcode, sequence and word are not modelled.
- IpcObjects.IpcKernel.SysReceiveWait: scheduling the next process is a separate step; register frames are not modelled.
- IpcObjects.IpcKernel.SysCreate: whether the caller may create endpoints and whether a capability can be minted are parameters.
- IpcObjects.IpcKernel.SysDestroy: the capability tables are not coupled to the endpoints here, so whether the caller holds the right is in the object it passes; what revoking the endpoint in every table does is proved in CapabilitySweep, where the order of the tables is arbitrary and tables left out hold nothing that names the object, as unused process slots do.
- AgentLoop.PiAgentLoop.Continue: answers of model, policy and executor and the moment of a crash are unconstrained choices; the policy and executor are assumed not to write the task record, one task is modelled, and event payloads and digests are not.
- AgentLoop.PiAgentLoop.ApproveTask: asks for what every run keeps, that a waiting task has a current action.
- AgentLoopRepeats.CrashRepeatsExactlyWhenUnsettled: asks for room for two outstanding events, as the constructor of the loop does.
- AgentLoopRuns.EveryRunKeepsTheBooks: the checkpoint is one value saved at once; CheckpointLog says what a torn append leaves of it, and only whole records are modelled as saved.
- CheckpointLog.AnyPrefixReopens: assumes parsing undoes printing, a printed record has no newline, and an append leaves a byte prefix; JSON, UTF-8 and fsync are not part of this model.
- SupervisorRuntime.Supervisor.Start: the nonce factory is assumed to return valid nonces; the sorted name lists that freeze, unfreeze, tick and start_all return are not modelled, and the event log is a sequence of events, not JSON lines.
- SupervisorRuns.EveryStreamIsAccepted: the validator's tests for unknown fields and types hold by the shape of the event type.
- ServiceOrder.ComputeOrder: manifests are taken as checked, each dependency listed once and known; the checks on other manifest fields are not modelled.
- ElfLoader.PlanWithBias: null pointer arguments are not modelled, except the memory pointer of the loader.
- ElfLoader.Load: the image is a value, so an image that aliases memory appears only as the refused address overlap.
- Initrd.SelectService: the buffer is as long as the size passed with it; null pointers are not modelled.
- Initrd.ReadsWhatWasBuilt: the manifest is its bytes and the number of its services; the builder's tests on manifest fields and names are not modelled.
- The fixed arrays inside a C structure, such as the 64 slots of a capability table, the 32 process slots and the regions of a space, are sequence fields their methods reassign; arrays that stand alone, such as the ring, the allocator's ranges and the loaded memory, are arrays.
- Process table and endpoint pool against capability tables: who holds which endpoint capability is a parameter of each call.
- Large pages in a template's upper half, TLB and CR3 effects, more than one processor: not modelled.
- policy_token.c, shared_memory.c, the other runtimes, drivers, boot code and system calls outside IPC: smaller copies of the same patterns, or device access.
