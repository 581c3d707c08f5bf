# OpenFAM in Dafny

A Dafny model of the parts of OpenFAM whose correctness is hardest to see by reading, and proofs about them.
Every statement is checked by the Dafny verifier (`dafny verify dfyconfig.toml`).

OpenFAM gives programs access to fabric-attached memory.  A *region* spans several memory servers; a *data
item* lives in a region and is dealt in blocks over its servers.  The model has six parts.

1. **Region references of a client** (`StatusWord`, `ResourceProtocol`, `ResourceInvariant`,
   `ResourceTheorems`, `ResourceCalls`, `ResourceRace`, `RefreshLock`, `ClientAllocate`).  Threads open and close regions
   through a table of resources, each with one atomic status/reference-count word.  The protocol is a transition
   system: any number of threads, one step per atomic action, locked section or remote call, spurious failures of
   the weak compare-and-swap included; opens register memory or not, and a holder closes its reference or drops
   it, which is to decide never to close it.  The main theorems hold in every state of every run, and
   `ResourceCalls` says what each call has done when it returns, whatever the other threads did meanwhile.
   `RefreshLock` is the lock taken while a resource's memory map is refreshed; `ClientAllocate` is the REGION-level
   allocate on top.
2. **Interleaved layout** (`Layout`, `Allocation`, `ServerChoice`, `CopyDispatch`, `CopyServer`, `CopyBytes`,
   `Backup`, `Restore`).  The block layout and its inverse, how many servers an item gets, the sizes requested from
   each, and copy, backup and restore down to the bytes of the file and of the servers' heaps: `CopyBytes` joins the
   dispatch of a copy in the client interface service to the loops of the memory servers.
3. **Heap registry of a memory server** (`HeapRegistry`, `HeapSafety`, `HeapTheorems`, `HeapLocks`,
   `HeapCalls`, `HeapRace`).  The delayed-free thread walks a list of heaps, hand over hand, while any number of threads create,
   open and destroy regions: again a transition system, with its safety, its locks and the outcome of every call.
4. **Bitmap** (`BitWord`, `Bitmap`, `BitmapThreads`, `BitmapCalls`).  The packed bitmap as an in-place array class
   refining a sequence of bits, and the same operations run by any number of threads.
5. **Region ids** (`RegionIds`, `RegionCalls`).  Creating and destroying a region fans out to memory servers that can
   each fail: a transition system over reservations, metadata, servers and calls.
6. **Completion queue and backup info** (`CompletionQueue`, `BackupInfo`).  Waiting for asynchronous copies over a
   shared queue, and the printer and parser of a backup's description.

What the code takes from outside becomes a parameter or a choice of the environment: the outcome of remote calls,
the order of completions and of server replies, spurious compare-and-swap failures, the time printed into a backup
description, and the memory maps servers answer with.  Files are byte sequences, heaps are byte sequences or arrays.

Where a promise does not hold on all inputs, the model keeps what the code does, gives an instance, and states
exactly when it holds:

- a count kept in 32 bits stays exact if and only if there is room for one more (`CountExactIffRoom`);
- close_all is safe if and only if every reference on what it releases was dropped or has a close past its table
  lookup (`CloseAllSafeIffNoneClosable`); otherwise the holder's close dereferences a missing entry
  (`CloseAllStrandsClose`) or, if the region was opened again, takes the new holder's count
  (`LateCloseStealsCount`);
- an open without registration makes its remote call before it owns the resource.  Its failure handler is safe if
  and only if nobody opened the resource meanwhile (`PlainFailureSafeIffUnused`, `PlainFailureLosesCount`), and a
  remote open whose compare-and-swap is lost is never closed (`LostCasWastesOpen`, `NoLossExactBalance`);
- a heap that finds its region mapped already is closed and deleted, which is safe if and only if its record is
  neither listed nor in the delayed-free thread's hands (`DropSafeIffUnreached`).  Two runs reach the use of a deleted
  heap (`OverlappingOpensUseDead`, `CreateWhileMappedUsesDead`); none does if no create or open of a region
  starts while the region is mapped or being inserted (`SerialRunsAreAllowed`);
- `continue` in the do-while loops of close_resource and lock_region_resource still evaluates the
  compare-and-swap, so meeting a BUSY word stores zero (`CloseLegalIffNotBusy`, `Cell.Refresh`,
  `SecondRefreshLosesCount`); closes of the modelled protocol never meet BUSY (`CloseNeverSeesBusy`);
- a backup reads inside the allocation of every item that allocate can create (`BackupReadsInBounds`), because an
  item gets no more servers than it has blocks, unless these are smaller than the 64 bytes sizes are rounded to
  (`BlocksForServers`); a restore of a shorter backup can write past
  it (`RestoreWritesInBoundsIff`, `ShortBackupWritesPastAllocation`) and over blocks of the destination that are
  not the backup's (`OnlyItsBlocksIff`), and a restore reads past a short file in a
  characterised set of cases (`NoShortReadIff`, `SameBlockSizeShortIff`, `UnspreadSourceShortIff`);
- a copy into an item on several servers works in whole destination blocks.  It writes up to the end of the last
  block it reaches (`WrittenUpTo`): exactly what was asked if and only if it is empty or ends on a block boundary
  (`WritesExactlyIff`); and it reads as far past the source's end, inside the source's allocation if and only if
  that ends before every source server's limit (`ReadsInAllocationIff`, `ShortSourceIsOverread`).  The memory
  server takes the displacement from the offset in its heap: every byte asked for comes from its own origin if
  and only if the item starts on a block boundary there or the copy ends before the first wrong byte
  (`AskedBytesRightIff`, `MisplacedItemMiscopies`).  From a source on one server which is also a server of the
  destination every round goes to the place of the first (`CopyInPlace`, `InPlaceMisses`);
- allocate leaves its reference open when a second lookup throws (`Client.Allocate`, `FailedLockKeepsReference`);
- a backup description is read back if and only if the item name has no newline, no line of the backup's own
  name reads as a number field with an unreadable number, the numbers fit signed types and the text fits the
  buffer (`RoundTripIff`, `NameCanSpoilText`; `ReadBackIff` for names that bring fields of their own).

## Model

| member | source | states |
|---|---|---|
| `ResourceInvariant.StepKeepsInv` | src/allocator/fam_client_resource_manager.cpp:188-385 | every step of every thread (opens with and without registration, closes, close_all) keeps the invariant tying each word to its references, its owner, the table, the garbage queue and the remote calls, and never leaves RELEASED; three steps are excluded, each with its own if-and-only-if below |
| `ResourceTheorems.CountsAlwaysExact` | src/allocator/fam_client_resource_manager.cpp:188-322 | in every run an ACTIVE resource's count is the number of outstanding opens on it; INACTIVE, BUSY and RELEASED ones have count 0 and none |
| `ResourceTheorems.BusyHasOneOwner` | src/allocator/fam_client_resource_manager.cpp:219-318 | a resource is BUSY exactly while one thread, the opener or the last closer, has taken it over, and never two |
| `ResourceTheorems.ReleasedIsTerminal` | src/allocator/fam_client_resource_manager.cpp:61-114 | once RELEASED, a resource is RELEASED in every later state |
| `ResourceTheorems.OneLiveResource` | src/allocator/fam_client_resource_manager.cpp:61-131 | a region has at most one resource that is not RELEASED, and it is the table's entry |
| `ResourceInvariant.LookupFindsOwnResource` | src/allocator/fam_client_resource_manager.cpp:275-283 | in any state of the invariant, the lookup of a holder's close finds the very resource its reference was opened on |
| `ResourceTheorems.CloseFindsItsResource` | src/allocator/fam_client_resource_manager.cpp:275-283 | in every run a holder's close finds an entry, it is the resource it opened, and it is ACTIVE |
| `ResourceTheorems.CloseNeverSeesBusy` | src/allocator/fam_client_resource_manager.cpp:281-308 | as long as close_all releases nothing that a holder can still close, no close dereferences a missing entry, and each reads only ACTIVE with a positive count, or RELEASED once close_all came between its lookup and its read |
| `ResourceTheorems.TableXorGarbage` | src/allocator/fam_client_resource_manager.cpp:47-112 | every published resource is in exactly one of table and garbage queue; the queue holds only RELEASED resources, none twice |
| `ResourceTheorems.RemoteBalance` | src/allocator/fam_client_resource_manager.cpp:136-186 | for each region, remote opens minus closes never drop below its ACTIVE resources plus the remote opens that no resource has taken |
| `ResourceTheorems.CloseSentOnce` | src/allocator/fam_client_resource_manager.cpp:317-384 | a remote close is about to be sent only for a resource that reached ACTIVE, was never closed, and by one thread only |
| `ResourceTheorems.QuietBalance` | src/allocator/fam_client_resource_manager.cpp:317-384 | with no call in flight, a RELEASED resource was closed remotely exactly if it ever was ACTIVE, and opens minus closes equal the ACTIVE resources plus the wasted opens, which nobody will close |
| `ResourceTheorems.NoLossExactBalance` | src/allocator/fam_client_resource_manager.cpp:244-259 | if no open without registration lost its compare-and-swap, opens minus closes equal the ACTIVE resources |
| `ResourceTheorems.LostCasWastesOpen` | src/allocator/fam_client_resource_manager.cpp:244-259 | a compare-and-swap that fails, because the resource changed or for no reason, leaves one remote open more than there are resources to close it for |
| `ResourceTheorems.CountExactIffRoom` | src/common/fam_internal.h:197-198 | counting one more reference stays exact if and only if the count fits 32 bits |
| `ResourceTheorems.CloseAllSafeIffNoneClosable` | src/allocator/fam_client_resource_manager.cpp:366-385 | releasing a resource in close_all keeps the invariant if and only if every reference on it was dropped or has a close past its lookup |
| `ResourceRace.CloseAllStrandsClose` | src/allocator/fam_client_resource_manager.cpp:275-364 | from every state with a reference that can still be closed, over any table and in whatever order close_all visits it, close_all followed by that close leads to the dereference of a missing entry |
| `ResourceRace.LateCloseStealsCount` | src/allocator/fam_client_resource_manager.cpp:275-364 | for every order as well, if the region is opened again in between, that close takes the new holder's reference and the count is wrong |
| `ResourceTheorems.CloseLegalIffNotBusy` | src/allocator/fam_client_resource_manager.cpp:281-308 | a close leaves a legal status if and only if the word it reads is not BUSY |
| `ResourceTheorems.PlainFailureSafeIffUnused` | src/allocator/fam_client_resource_manager.cpp:165-186 | the failure handler of an open without registration keeps the invariant if and only if the resource is INACTIVE or RELEASED by then |
| `ResourceRace.PlainFailureLosesCount` | src/allocator/fam_client_resource_manager.cpp:244-259 | for any two threads and any region, a run from the empty table in which one of two such opens fails and releases the resource under the other's reference |
| `ResourceCalls.FinishedOpen` | src/allocator/fam_client_resource_manager.cpp:188-262 | in every run, an open that has returned and was not refused by the memory server has added exactly one reference, counted on the region's ACTIVE entry, and else only, under FAM_INIT_ONLY, made that entry ACTIVE itself; a refused one has added none |
| `ResourceCalls.FinishedClose` | src/allocator/fam_client_resource_manager.cpp:275-322 | in every run, a close that has returned has given its reference back; its resource is then held by others or RELEASED, and closed remotely if this close was the last |
| `ResourceCalls.FinishedCloseAll` | src/allocator/fam_client_resource_manager.cpp:328-385 | in every run, when close_all returns, each entry of the table it started with was not ACTIVE in some state of the call |
| `ResourceCalls.RunHasTrace` | src/allocator/fam_client_resource_manager.cpp:188-385 | every run is the run of some sequence of steps, so the three results above are about all runs |
| `RefreshLock.Cell.Lock` | src/common/fam_internal.h:214-230 | locks an ACTIVE word keeping its count, refuses INACTIVE and RELEASED, stores zero over BUSY |
| `RefreshLock.Cell.Unlock` | src/common/fam_internal.h:236-247 | turns BUSY back into ACTIVE with the same count, leaves other words alone |
| `RefreshLock.Cell.Refresh` | src/common/fam_internal.h:214-247 | lock followed by unlock restores the word if and only if it was not BUSY |
| `RefreshLock.SecondRefreshLosesCount` | src/common/fam_internal.h:214-230 | an instance: a second lock while the first is held wipes out the count |
| `ClientAllocate.Client.Allocate` | src/allocator/fam_allocator_client.cpp:299-397 | INIT_DONE is returned exactly if every server's extent is in the opened map or in the one a locked refresh answers; it holds one new reference and has, for every server, key and base of the item's own extent, all read in range; KEY_NOT_VALID holds none; it throws, keeping its reference, exactly when a stale server is missing from the refreshed map |
| `ClientAllocate.RegistrationExact` | src/allocator/fam_allocator_client.cpp:334-374 | key and base come from the opened map if that has the extent, else from the answer of a refresh that was locked, else from nowhere |
| `ClientAllocate.FailedLockKeepsReference` | src/allocator/fam_allocator_client.cpp:341-374 | an instance: a failed refresh lock makes allocate throw with the region still open |
| `Layout.LayoutRoundTrip` | src/cis/fam_cis_direct.cpp:1876-1891 | a logical byte is found again from its server and local position: the layout is injective |
| `Layout.LogicalRoundTrip` | src/cis/fam_cis_direct.cpp:1876-1891 | every server and local position is the place of exactly one logical byte |
| `Layout.BlocksCover` | src/cis/fam_cis_direct.cpp:819-822 | the block count is the least that covers the item |
| `Layout.ShareExact` | src/cis/fam_cis_direct.cpp:823-824 | a server's share of the blocks is exactly the blocks dealt to it |
| `Allocation.AllocateSizes` | src/cis/fam_cis_direct.cpp:818-850 | the size loop requests ServerSize from every server |
| `Allocation.RegisterSizes` | src/cis/fam_cis_direct.cpp:1240-1272 | registration recomputes the same sizes from the metadata |
| `Allocation.Rounded` | src/cis/fam_cis_direct.cpp:840-842 | alignment never shrinks a request, adds less than 64 bytes, and gives a multiple of 64 unless the addition wraps around |
| `Allocation.RawSizeExact` | src/cis/fam_cis_direct.cpp:831-839 | a local position lies below the server's unaligned size exactly if its block is one of the item's |
| `Allocation.ItemFits` | src/cis/fam_cis_direct.cpp:818-850 | every byte of the item lies inside what is requested from its server |
| `Allocation.ItemPlacesDistinct` | src/cis/fam_cis_direct.cpp:818-850 | no two bytes of an item share a place |
| `Allocation.RawSizesAddUp` | src/cis/fam_cis_direct.cpp:818-838 | the sizes before alignment add up to the item rounded up to whole blocks |
| `ServerChoice.FindMemoryServerListItem` | src/metadata_service/fam_metadata_service_direct.cpp:2731-2775 | the servers of an item: ServerCount many, consecutive in the region's list from the starting one, wrapping around |
| `ServerChoice.ServersDiffer` | src/metadata_service/fam_metadata_service_direct.cpp:2763-2773 | no server is chosen twice |
| `ServerChoice.CountBounded` | src/metadata_service/fam_metadata_service_direct.cpp:2745-2761 | never more servers than the region has, nor, if more than one, than the rounded size has blocks |
| `ServerChoice.NumServers` | src/metadata_service/fam_metadata_service_direct.cpp:2752-2761 | an item larger than a block gets one server for each block, as far as the region has servers |
| `ServerChoice.BlocksForServers` | src/metadata_service/fam_metadata_service_direct.cpp:2745-2761 | an item on several servers has a block for each of them, unless its blocks are smaller than 64 bytes |
| `ServerChoice.RoundingKeepsBlocks` | src/metadata_service/fam_metadata_service_direct.cpp:2745-2761 | rounding a size up to 64 adds no block to an item whose block size is a multiple of 64 |
| `CopyDispatch.Copy` | src/cis/fam_cis_direct.cpp:1836-1912 | out of range exactly when source or destination end lies past its item; otherwise every call is aligned |
| `CopyDispatch.Dispatch` | src/cis/fam_cis_direct.cpp:1893-1912 | call i addresses the layout image of the start (i = 0) or of block start / I + i, and its source start has moved by the same distance |
| `CopyDispatch.DispatchIsAligned` | src/cis/fam_cis_direct.cpp:1894-1907 | the wrapped server index, row pointer and displacement are server and local position of that logical byte |
| `CopyDispatch.SourceAdvances` | src/cis/fam_cis_direct.cpp:1911-1911 | the source advances by the distance between consecutive first bytes |
| `CopyServer.PullBuffer` | src/memory_service/fam_memory_service_direct.cpp:487-587 | fills a buffer with consecutive logical bytes of a source spread over servers, from any displacement, and nothing else; it succeeds exactly if buffer and source bytes are there |
| `CopyServer.CopyRound` | src/memory_service/fam_memory_service_direct.cpp:452-485 | one round fills the rest of a block and moves the source on by the blocks of all servers, or fails because the request does not fit |
| `CopyServer.CopyBlocks` | src/memory_service/fam_memory_service_direct.cpp:435-591 | the loop of a request succeeds exactly if every byte it touches is in the heap and every byte it reads in the source's memory; then it writes exactly the rounds that begin before the end of the source, each position from its own source byte |
| `CopyServer.CopyInPlace` | src/memory_service/fam_memory_service_direct.cpp:463-485 | from a source on this server alone it writes at most one block, succeeds exactly if that block and all it reads are there, is right if a second round is not run, and otherwise leaves in that block the source bytes of the last round |
| `CopyServer.InPlaceMisses` | src/memory_service/fam_memory_service_direct.cpp:467-470 | if a second round is run, some byte that should be copied lies outside that block |
| `CopyServer.CopyWhole` | src/memory_service/fam_memory_service_direct.cpp:445-485 | a destination on one server gets exactly the bytes asked for, exactly if they fit |
| `CopyServer.ServerCopy` | src/memory_service/fam_memory_service_direct.cpp:421-591 | the three cases of a request together, its failures included: a block size of 0, by which it divides, and reads and writes outside memory |
| `CopyBytes.FitsIff` | src/memory_service/fam_memory_service_direct.cpp:435-591 | for an item on a block boundary, a request fits exactly if every byte the copy writes on its server has its place in the heap and its origin in the source's memory |
| `CopyBytes.EndedDone` | src/memory_service/fam_memory_service_direct.cpp:435-591 | for an item on a block boundary, a request that is carried out leaves the source's byte at each written place and the rest unchanged |
| `CopyBytes.CopySpread` | src/cis/fam_cis_direct.cpp:1836-1912 | rejected exactly when an end lies past its item, and then nothing changes; otherwise every server's heap is what its own request leaves, wherever the item and the source lie; done only if every request is carried out, failed only if one is not |
| `CopyBytes.CopySingle` | src/cis/fam_cis_direct.cpp:1836-1912 | the same for an item on one server, writing exactly the range; failed exactly if the block size is 0 or a read or write leaves the memory |
| `CopyBytes.ItemCopied` | src/cis/fam_cis_direct.cpp:1836-1912 | seen from the item: byte d is the source's byte at the same distance if it is written, and what it was if not |
| `CopyBytes.EveryServer` | src/cis/fam_cis_direct.cpp:1893-1899 | every server of the destination is sent a call |
| `CopyBytes.ServersDistinct` | src/cis/fam_cis_direct.cpp:1893-1899 | no server is sent two |
| `CopyBytes.WrittenUpTo` | src/memory_service/fam_memory_service_direct.cpp:452-458 | the written bytes are those from the start to the end of the last block reached |
| `CopyBytes.WritesExactlyIff` | src/memory_service/fam_memory_service_direct.cpp:452-458 | they are exactly the bytes asked for if and only if the copy is empty or ends on a block boundary |
| `CopyBytes.ShortCopyWritesWholeBlock` | src/memory_service/fam_memory_service_direct.cpp:452-458 | an instance: 10 bytes into a block of 128 |
| `CopyBytes.WritesInAllocation` | src/memory_service/fam_memory_service_direct.cpp:452-458 | a copy inside the item writes inside what was allocated for it |
| `CopyBytes.AskedByteRightIff` | src/memory_service/fam_memory_service_direct.cpp:435-485 | wherever the item lies in the heap, a byte asked for comes from its own origin exactly if the displacement in the heap and that in the item put it into the same round |
| `CopyBytes.AskedBytesRightIff` | src/memory_service/fam_memory_service_direct.cpp:435-485 | a server copies every byte asked of it right if and only if the item starts on a block boundary of its heap or the bytes asked end before the first wrong one |
| `CopyBytes.MisplacedItemMiscopies` | src/memory_service/fam_memory_service_direct.cpp:435-485 | an instance: an item at offset 128 with blocks of 256 gets source byte 384 at its byte 128 |
| `CopyBytes.MisplacedItemOverruns` | src/memory_service/fam_memory_service_direct.cpp:435-485 | the same copy writes past the item's bytes on that server |
| `CopyBytes.ReadsInAllocationIff` | src/memory_service/fam_memory_service_direct.cpp:454-475 | a copy within its source item reads inside that item's allocation if and only if it is empty or ends, rounded up to the destination's block, before every source server's limit |
| `CopyBytes.ShortSourceIsOverread` | src/memory_service/fam_memory_service_direct.cpp:454-475 | an instance: a source of 10 bytes, allocated 128, is read up to byte 256 |
| `Backup.BackupJob` | src/allocator/memserver_allocator.cpp:499-517 | one server's loop writes chunk r to file slot r * servers + start, for all its chunks |
| `Backup.WritesDisjoint` | src/allocator/memserver_allocator.cpp:499-517 | writes of different jobs, and of different chunks of a job, never overlap |
| `Backup.BackupLinearises` | src/cis/fam_cis_direct.cpp:1984-2046 | in every interleaving of the jobs' chunk writes, file byte b ends up as logical byte b of the item |
| `Backup.Backup` | src/cis/fam_cis_direct.cpp:1984-2046 | the job parameters and loops leave a file that starts with the item, byte for byte |
| `Backup.BackupReadsInBounds` | src/cis/fam_cis_direct.cpp:1988-2003 | for every item that allocate can create, each job reads inside what was allocated on its server |
| `Backup.AllocatedItemIsReadable` | src/cis/fam_cis_direct.cpp:1988-2003 | so heaps that reach to the end of the allocations satisfy what Backup asks of them |
| `Backup.BackupLength` | src/allocator/memserver_allocator.cpp:499-517 | the finished file ends exactly at the last block slot any job writes |
| `Restore.RestoreJob` | src/allocator/memserver_allocator.cpp:578-601 | one server's loop fills its chunks from the file and nothing else, and fails exactly when the file ends before its last chunk |
| `Restore.Restore` | src/cis/fam_cis_direct.cpp:2100-2163 | refused exactly if the item is smaller than the backup; fails exactly if the file lacks a needed block; otherwise every server with a block of the backup holds what its job reads from the file; in all cases a server without one is as it was, and so is the rest of the others |
| `Restore.HasBlockIff` | src/cis/fam_cis_direct.cpp:2125-2127 | the servers a restore goes to are exactly those where some byte of the backup lives |
| `Restore.OverwrittenIff` | src/cis/fam_cis_direct.cpp:2106-2163 | the bytes of the destination that lie in what the jobs write: those of the backup's blocks and, if these are fewer than the servers, of as many blocks in the second row |
| `Restore.OtherBytesKept` | src/cis/fam_cis_direct.cpp:2106-2163 | every other byte of the destination keeps its value |
| `Restore.NoneOverwritten` | src/cis/fam_cis_direct.cpp:2125-2150 | no byte is overwritten on a server where no byte of the backup lives |
| `Restore.OnlyItsBlocksIff` | src/cis/fam_cis_direct.cpp:2106-2119 | only blocks of the backup are overwritten if and only if it is not spread, has a block per server, or the destination has no second row |
| `Restore.NoShortReadIff` | src/allocator/memserver_allocator.cpp:581-601 | no job meets a short read if and only if the file has every block the restore reads |
| `Restore.RestoreAfterBackup` | src/cis/fam_cis_direct.cpp:2106-2163 | after a backup in any order and a restore without short read, byte b of the destination is byte b of the source, for any server counts and block sizes |
| `Restore.SameBlockSizeShortIff` | src/cis/fam_cis_direct.cpp:2106-2119 | between items of one size and block size, for any two server counts, exactly when the file is long enough |
| `Restore.UnspreadSourceShortIff` | src/cis/fam_cis_direct.cpp:2106-2119 | from an item that was not spread, a restore into a spread one is not short if and only if the file, one copy per source server, reaches the last block the restore reads |
| `Restore.UnspreadSourceRunsShort` | src/cis/fam_cis_direct.cpp:2106-2119 | an instance: 150 bytes from one server into blocks of 128 over two |
| `Restore.RestoreWritesInBoundsIff` | src/cis/fam_cis_direct.cpp:2106-2119 | restore writes stay inside the destination's allocation if and only if the backup is not spread, has a block per server, or the last server used has room for two blocks |
| `Restore.ShortBackupWritesPastAllocation` | src/cis/fam_cis_direct.cpp:2114-2119 | an instance: 200 bytes into an item of 384 bytes in blocks of 128 over 3 servers |
| `HeapSafety.StepKeepsInv` | src/allocator/memserver_allocator.cpp:144-334 | every step of the delayed-free thread and of any number of creates, opens and destroys keeps the invariant of list, records, locks, map and heaps, unless it drops a heap that the delayed-free thread can reach |
| `HeapTheorems.GcNeverUsesDead` | src/allocator/memserver_allocator.cpp:144-166 | in every run without such a drop the delayed-free thread never touches a deleted record or a closed or deleted heap |
| `HeapTheorems.DestroyerOwnsWhatItFrees` | src/allocator/memserver_allocator.cpp:288-324 | a destroyer, with a record or without, closes an open heap the delayed-free thread cannot reach, deletes a record nobody holds or will find, and each record and heap once |
| `HeapTheorems.DropSafeIffUnreached` | src/allocator/memserver_allocator.cpp:247-262 | closing or deleting a heap that could not be mapped keeps the invariant if and only if its record is neither listed nor held by the delayed-free thread |
| `HeapTheorems.SerialRunsAreAllowed` | src/allocator/memserver_allocator.cpp:885-936 | if no create or open of a region starts while it is mapped or being inserted, no heap is ever dropped and all of the above holds |
| `HeapRace.OverlappingOpensUseDead` | src/allocator/memserver_allocator.cpp:885-936 | a run in which two opens of one region end with the delayed-free thread using a deleted heap |
| `HeapRace.CreateWhileMappedUsesDead` | src/allocator/memserver_allocator.cpp:177-324 | a run with one open and one destroy at a time, followed by a create, that ends the same way |
| `HeapRace.BareCloseIsReached` | src/allocator/memserver_allocator.cpp:312-316 | a run that reaches the close of a heap without a record |
| `HeapLocks.NoDeadlock` | src/allocator/memserver_allocator.cpp:144-324 | in every run, whatever is closed or deleted too early in it, whenever a call or a pass is under way one of them can take a step, even if waiting writers keep readers out |
| `HeapTheorems.PassVisitsAll` | src/allocator/memserver_allocator.cpp:147-163 | one pass visits every region above 0 that stays listed, in strictly increasing order, hence once, whatever is inserted and removed meanwhile |
| `HeapTheorems.PassUsesAll` | src/allocator/memserver_allocator.cpp:147-163 | in every run without such a drop, a pass frees delayed objects in the heap of every region above 0 that stays listed |
| `HeapTheorems.PassTerminates` | src/allocator/memserver_allocator.cpp:147-163 | a pass over ids up to a bound makes at most that many visits |
| `HeapTheorems.VisitAdvances` | src/allocator/memserver_allocator.cpp:151-154 | each look at the list moves nextId up to a listed id or ends the pass |
| `HeapCalls.FinishedDestroy` | src/allocator/memserver_allocator.cpp:288-334 | in every run, a destroy that has returned has taken the heap it found in the map out of the map and out of the list; if its close did not fail that heap is deleted and the pool destroyed, else the call has deleted nothing |
| `HeapCalls.FinishedInsert` | src/allocator/memserver_allocator.cpp:177-264 | in every run, a create or open that has returned brought a new heap and saw its region listed and mapped; the map has the new heap, or that heap is deleted again, and the pool of a create with it, because the map had one |
| `HeapCalls.RunHasTrace` | src/allocator/memserver_allocator.cpp:144-334 | every run is the run of some sequence of steps, so these two results are about all runs |
| `Bitmap.AtomicBitmap.constructor` | src/bitmap-manager/bitmap.cpp:40-54 | a new bitmap has every bit clear |
| `Bitmap.AtomicBitmap.GetBit` | src/bitmap-manager/bitmap.cpp:62-73 | bit n of the sequence the words stand for |
| `Bitmap.AtomicBitmap.SetBit` | src/bitmap-manager/bitmap.cpp:75-100 | sets bit n and changes no other |
| `Bitmap.AtomicBitmap.ResetBit` | src/bitmap-manager/bitmap.cpp:102-127 | clears bit n and changes no other |
| `Bitmap.AtomicBitmap.Reserve` | src/bitmap-manager/bitmap.cpp:134-175 | flips bit n exactly if it has the wanted value, and says whether it did |
| `Bitmap.AtomicBitmap.FindAndReserve` | src/bitmap-manager/bitmap.cpp:182-198 | flips the least matching bit at or after start and returns it, or NOTFOUND exactly when there is none |
| `Bitmap.AtomicBitmap.Find` | src/bitmap-manager/bitmap.cpp:202-213 | the least matching index at or after start, or NOTFOUND exactly when there is none |
| `Bitmap.WithBitOnly` | src/bitmap-manager/bitmap.cpp:215-223 | changing a bit of its word changes that bit of the bitmap and no other |
| `Bitmap.BitsWithBit` | src/bitmap-manager/bitmap.cpp:215-223 | on the sequence of bits it is the update at that index |
| `BitmapThreads.StepChangesOwnBit` | src/bitmap-manager/bitmap.cpp:102-175 | no successful compare-and-store changes a bit other than the one its thread works on |
| `BitmapThreads.StepKeepsInv` | src/bitmap-manager/bitmap.cpp:102-198 | every word access of every thread keeps set bits and held bits equal |
| `BitmapThreads.ReservationIsExclusive` | src/bitmap-manager/bitmap.cpp:134-198 | in every run the set bits are exactly the held bits and no bit has two holders |
| `BitmapCalls.FinishedSearch` | src/bitmap-manager/bitmap.cpp:182-198 | in every run, a search that has returned has reserved exactly one bit at or after its start, and every earlier one from there on was set in some state of the call, or it has reserved none and every bit up to the size was |
| `BitmapCalls.FinishedReset` | src/bitmap-manager/bitmap.cpp:102-127 | in every run, a reset that has returned has cleared its bit and given back that bit alone |
| `BitmapCalls.RunHasTrace` | src/bitmap-manager/bitmap.cpp:102-198 | every run is the run of some sequence of steps, so these two results are about all runs |
| `RegionIds.Accumulate` | src/cis/fam_cis_direct.cpp:665-685 | the loop over the replies computes the AND of the reported statuses and the number of failures |
| `RegionIds.FoldReleasedIff` | src/cis/fam_cis_direct.cpp:665-694 | with no failure, the accumulated status is RELEASED if and only if there are servers and all of them reported it |
| `RegionIds.SharedBitFoldsToReleased` | src/cis/fam_cis_direct.cpp:677-677 | an instance: statuses that share RELEASED's bit would fold to it |
| `RegionIds.StepKeepsInv` | src/cis/fam_cis_direct.cpp:498-706 | every metadata call and server reply of every create and destroy keeps the invariant |
| `RegionIds.FreeIdIsUnheld` | src/cis/fam_cis_direct.cpp:498-706 | in every run a free id is kept by no memory server, registered nowhere, and worked on by no call |
| `RegionIds.RegisteredRegionIsComplete` | src/cis/fam_cis_direct.cpp:590-618 | a registered region exists on all of its servers and on no other |
| `RegionIds.DestroyGivesBackIff` | src/cis/fam_cis_direct.cpp:687-703 | a destroy gives the id back if and only if every server reported RELEASED |
| `RegionIds.CleanupGivesBackIff` | src/cis/fam_cis_direct.cpp:445-470 | a failed create gives the id back, kept and registered nowhere, exactly if no cleanup failed |
| `RegionCalls.FinishedCreate` | src/cis/fam_cis_direct.cpp:498-618 | in every run, a create that has returned has registered the id for exactly its servers if and only if every server created the region and the metadata service took it; otherwise the id is registered nowhere, and free and kept by no server exactly if there are servers and no cleanup failed |
| `RegionCalls.FinishedDestroy` | src/cis/fam_cis_direct.cpp:635-706 | in every run, a destroy that has returned has taken the region out of the metadata, and given its id back, kept by no server, if and only if every server of the region reported RELEASED |
| `RegionCalls.RunHasTrace` | src/cis/fam_cis_direct.cpp:498-706 | every run is the run of some sequence of steps, so these two results are about all runs |
| `CompletionQueue.Client.Issue` | src/cis/fam_cis_client.cpp:476-491 | adds one wait object and one outstanding answer |
| `CompletionQueue.OutcomeOf` | src/cis/fam_cis_client.cpp:538-554 | a wait succeeds exactly for an answer with error code 0 |
| `CompletionQueue.Client.WaitForCopy` | src/cis/fam_cis_client.cpp:493-554 | returns the answer to its own request, whatever is delivered meanwhile, deletes its own object once and leaves every other request its answer |
| `CompletionQueue.WaitForEach` | src/cis/fam_cis_client.cpp:493-554 | waiting once for each of some requests, in any order, gives each its own answer and deletes each once |
| `CompletionQueue.DeliveryKeepsAnswers` | src/cis/fam_cis_client.cpp:524-536 | handing a completion to a wait changes no answer and shortens the queue |
| `BackupInfo.GetBackupInfo` | src/allocator/memserver_allocator.cpp:637-670 | the line loop computes Parse |
| `BackupInfo.ReadBack` | src/allocator/memserver_allocator.cpp:650-665 | a printed number is read back exactly if it is in the reader's signed range |
| `BackupInfo.FillFields` | src/allocator/memserver_allocator.cpp:534-539 | whatever was read before them, the six lines after the backup's name give back what was printed exactly if the numbers are in range |
| `BackupInfo.CutLosesMode` | src/allocator/memserver_allocator.cpp:534-539 | a text cut inside its last line does not give back the mode |
| `BackupInfo.RoundTripIff` | src/allocator/memserver_allocator.cpp:531-670 | size, uid, gid, mode, time and item name come back if and only if the item name has no newline, no line of the backup's name is an unreadable number field, the numbers are in signed range and at most the final newline is cut off |
| `BackupInfo.LastLineWins` | src/allocator/memserver_allocator.cpp:641-669 | a text is accepted exactly if every number field in it can be read, and then each field is what the last line naming it says |
| `BackupInfo.ReadBackIff` | src/allocator/memserver_allocator.cpp:531-670 | for every backup, also with a cut text and a name that brings lines of its own: it is read back exactly if the numbers left in the text can be read and the last line for each field has its value |
| `BackupInfo.OneLineName` | src/allocator/memserver_allocator.cpp:531-539 | a backup name of one line has no such line |
| `BackupInfo.NameCanSpoilText` | src/allocator/memserver_allocator.cpp:641-669 | an instance: a backup name with a second line "uid: z" makes the text unreadable |
| `BackupInfo.LargeUidIsLost` | src/allocator/memserver_allocator.cpp:658-659 | an instance: a uid above the signed range is written and not read back |

## Left out

- gRPC and Thallium stubs and servers: field copying between message types.
- NVMM heaps, libfabric and the metadata service's internals: a heap is bytes, a server call succeeds or fails, metadata is a map and a bitmap.
- The asynchronous queue handler: copy, backup and restore are their synchronous branches, and wait objects complete through the RPC queue only.
- Failures and overlap of the memory server's remote reads in a copy: a read is complete when issued, and the source does not change meanwhile.
- Runs of the region-reference protocol in which a count reaches 2^32, close_all releases a resource that a holder can still close, or an open without registration fails on a resource another thread has opened: the run theorems exclude those three steps, and each has its own if-and-only-if.
- Map refreshes during a run of the protocol, and references taken through lookup or given back by deallocate: runs consist of opens, closes by holders and close_all; the refresh lock has its own if-and-only-if.
- close_all's iterator is taken before its lock, and an exception of its remote close leaves the lock held: the model takes the table under the lock and lets the remote close return.
- Allocation rollback and its pairing of offsets with servers; permission checks; configuration, tools and profiling.
- 64-bit wrap-around of copy ranges, sizes and file positions: these, and the 32-bit server counter of the server choice, are unbounded numbers; only the alignment's addition wraps.
- Two destroys of one region at the same time, which erase from the map through a stale iterator; the list of one delayed-free thread stands for all of them.
- That a call returns at all: what a call has done is stated for calls that have returned; progress is stated by NoDeadlock and PassTerminates only.
- The destroy of a region in shared-memory mode, which leaves the reported status unset.
- The file length and terminator handling of get_backup_info: the parser is given exactly the written text; the time string is a parameter without newline.
- Bitmap.AtomicBitmap.Reserve: runs undisturbed here; retries after interference are in BitmapThreads.
- CopyServer.ServerCopy: branches of the loop that do not change during a request (number of destination servers, place of the source) are taken before it.
- CopyBytes.FitsIff: for items on a block boundary of the heap; AskedBytesRightIff says what happens off it.
- CopyBytes.EndedDone: likewise for items on a block boundary, and for a source that is spread, on another server, or read in one round.
- BackupInfo.RoundTripIff: leaves out texts too long for the buffer whose backup name has a mode line of its own; there the name's lines can stand in for any field cut off, and ReadBackIff says exactly when they do.
- The result of heap->Open in open_heap, which the code ignores: an inserted heap is open.
- RefreshLock.Cell.Lock: no other thread acts during the call; spurious failures are modelled.
- RefreshLock.Cell.Unlock: no other thread acts during the call.
- RefreshLock.Cell.Refresh: no other thread acts between lock and unlock; a second lock is in SecondRefreshLosesCount.
- ResourceInvariant.StepKeepsInv: excludes the three steps named above; it says what steps keep, and FinishedOpen, FinishedClose and FinishedCloseAll what calls achieve.
- BitmapThreads.StepKeepsInv: says what steps keep; what calls achieve is in FinishedSearch and FinishedReset.
- HeapSafety.StepKeepsInv: excludes the drop of a heap that the delayed-free thread can reach, which DropSafeIffUnreached shows to be the exact condition; what calls achieve is in FinishedDestroy and FinishedInsert, over all runs.
- HeapTheorems.GcNeverUsesDead: over runs without such a drop; HeapRace has runs with one.
- HeapTheorems.DestroyerOwnsWhatItFrees: over runs without such a drop.
- ResourceTheorems.CloseNeverSeesBusy: over runs in which close_all releases nothing a holder can still close; CloseAllStrandsClose has the others.
- CompletionQueue.Client.WaitForCopy: one waiting thread, and every issued request completes.
- RegionIds.StepKeepsInv: says what steps keep, and RegionCalls what calls achieve; a server that fails to create a region leaves nothing behind, and a status other than RELEASED does not include RELEASED's bit.
