# lwIP on the NuMicro M487: a Dafny model

This project models the parts of the bundled lwIP stack that are hardest to get right, and proves
what they promise for every input, every run and every interleaving. `dafny verify dfyconfig.toml`
checks all of it.

| files | part of the stack |
|---|---|
| `HeapModel`, `HeapOps`, `HeapRuns`, `Heap`, `HeapInterrupts` | the heap of `core/mem.c`: block list in place, splitting, coalescing, shrinking, the lowest-free pointer, and `mem_malloc` with frees from interrupt context |
| `SelectList`, `Select`, `SelectProofs`, `SelectEvents` | `lwip_select` against `event_callback` in `api/sockets.c`, without core locking |
| `SelectSlots`, `SelectSlotsProofs`, `SelectSlotsRuns`, `SelectSlotsCalls` | select calls and the socket table in one machine: marking, scanning, counting, and slots that are closed and opened again meanwhile |
| `SocketSlots` | reference counting of socket slots with `LWIP_NETCONN_FULLDUPLEX` |
| `EarlyEvents` | receive events before `lwip_accept` has given a connection its socket |
| `StreamRecv` | `lwip_recv_tcp`: the stream through `lastdata` and the receive mailbox |
| `Netconn` | blocking write, close, connect and delete in `api/api_msg.c`, and the TCP callbacks |
| `VectorWrite`, `NetconnWrites` | `lwip_netconn_do_writemore` over several vectors, alone and in the netconn machine |
| `DnsModel`, `DnsProofs`, `DnsRuns`, `DnsCache`, `DnsNames`, `DnsQueries`, `Dns` | the resolver of `core/dns.c` with `LWIP_DNS_SECURE_NO_MULTIPLE_OUTSTANDING` |
| `DnsCodec`, `DnsReply` | names and replies in DNS messages (sections 3.1 and 4 of RFC 1035), as `dns.c` writes and reads them |
| `ChecksumModel`, `Checksum`, `ChecksumPbuf` | the Internet checksum (RFC 1071) in all its forms |
| `Pool` | the pool allocator of `core/memp.c` over memory that clients write, and its cycle test |
| `Basics`, `Errors` | what several parts share |

Where the code updates things in place, a class with the same fields and loops does the same. Its
methods keep an invariant over the objects and arrays, say what they change and what they leave
alone, and are tied to a function on values; what holds over whole runs is proved about those
functions. Where threads interleave, every region between `SYS_ARCH_PROTECT` and
`SYS_ARCH_UNPROTECT` is one step of a state machine, and theorems are about all traces of steps.
What the network, the clock, TCP, the scheduler and random numbers decide comes in as an argument of
a step, without restriction.

Some promises and assertions of the code are not always met. For each there is the exact condition
and an input or a run that fails:

| what fails | exactly when | example |
|---|---|---|
| the assertion at `mem.c:790` | `HeapAllocator.Heap.MemTrim` | `HeapRuns.LastBlockCanBeTrimmed` |
| the assertion at `sockets.c:362` | `SocketSlots.LockedAssertionIff` | `SocketSlots.LockedAssertionCanFail` |
| the assertion at `sockets.c:526` | `SelectSlotsRuns.AssertionFailsIff` | `SelectSlotsRuns.FailingRun`, `SelectSlotsRuns.EarlyRun` |
| a select call is told that its socket has become writable | `SelectProofs.LostWakeupIff`, `SelectProofs.AllocLoses` | `SelectSlotsRuns.LostRun` |
| replaying early events | `EarlyEvents.PublishCompleteIff` | `EarlyEvents.TooManyEarly` |
| every thread that posts a message is woken | `NetconnModel.LostIff` | `NetconnModel.SecondCloseExample` |
| the loop of `lwip_netconn_do_writemore` ends | `VectorWrite.EndsIff`, `VectorWrite.StallsIff` | `VectorWrite.StallExample` |
| the assertion at `api_msg.c:1658` | `VectorWrite.AssertionFailsIff` | `VectorWrite.TrailingEmptyVector` |
| a full table with a completed entry takes a query | `DnsCache.NoVictimIff` | `DnsCache.NoVictimExample` |
| a reply is accepted only for the name asked for | `DnsReply.SpelledIff` | `DnsCodec.DotNotChecked`, `DnsReply.BeginningAccepted` |
| a name in a reply is skipped | `DnsReply.SkippedIff` | `DnsCodec.RootMisread` |
| a 32-bit accumulator holds the sum | `Checksum.LengthLimit` | its second half |
| the assertion at `inet_chksum.c:416` | `ChecksumPbuf.SumPartial` | `ChecksumPbuf.PartialExample` |

The comment at `mem.c:385` calls the entry at the end of the heap "always unused"; `mem_init` marks it
as used, and the model follows the code.

## Model

| member | source | states |
|---|---|---|
| `HeapModel.RoundUp` | Middleware/lwIP/core/mem.c:844-850 | the least multiple of the alignment that is not below the size |
| `HeapModel.SizeRefusedIff` | Middleware/lwIP/core/mem.c:846-856 | a size is refused exactly when its true rounding exceeds the heap, also when the rounding wraps around mem_size_t; an accepted size was rounded faithfully |
| `HeapModel.JoinTiling` | Middleware/lwIP/core/mem.c:488-508 | combining a block with the next keeps the blocks tiling the heap with both link directions agreeing |
| `HeapModel.SplitTiling` | Middleware/lwIP/core/mem.c:902-916 | cutting a block in two keeps the tiling, and the new start was none before |
| `HeapModel.MoveTiling` | Middleware/lwIP/core/mem.c:755-780 | moving the free block behind a trimmed one down keeps the tiling |
| `HeapOps.InitialInv` | Middleware/lwIP/core/mem.c:516-545 | the fresh heap satisfies the heap invariant and has no allocated block |
| `HeapOps.PlugHolesKeeps` | Middleware/lwIP/core/mem.c:474-510 | after plugging no free block is followed by another one, lfree is again the lowest, and every allocated block is where and as long as it was |
| `HeapOps.ReleaseKeeps` | Middleware/lwIP/core/mem.c:669-685 | freeing a held block keeps the invariant, removes exactly that block and lowers `used` by its extent |
| `HeapOps.HeldAccepted` | Middleware/lwIP/core/mem.c:551-564 | the pointer of every allocated block passes all checks of mem_free |
| `HeapOps.MoveDownKeeps` | Middleware/lwIP/core/mem.c:755-780 | trimming in front of a free block keeps order and coalescing and moves only the end of the trimmed block |
| `HeapOps.CutOffKeeps` | Middleware/lwIP/core/mem.c:781-805 | trimming in front of a used block does the same, also in front of ram_end |
| `HeapOps.ShrinkKeeps` | Middleware/lwIP/core/mem.c:753-818 | trimming keeps the invariant; the end moves exactly as far as the code says and `used` with it |
| `HeapOps.ScanFinds` | Middleware/lwIP/core/mem.c:870-891 | the scan finds the lowest block that fits and stops without one exactly when none fits |
| `HeapOps.PickLowest` | Middleware/lwIP/core/mem.c:840-891 | starting at lfree loses nothing: the lowest fitting block of the whole heap is picked, and none exactly when the size is zero, too big after rounding, or fits nowhere |
| `HeapOps.TakeAdds` | Middleware/lwIP/core/mem.c:891-927 | taking the block, split or whole, adds exactly it to the allocated blocks |
| `HeapOps.NextFreeLowest` | Middleware/lwIP/core/mem.c:931-948 | the walk behind a taken block ends at the lowest free block, or at ram_end when there is none |
| `HeapOps.MallocKeeps` | Middleware/lwIP/core/mem.c:831-976 | mem_malloc keeps the invariant, adds exactly the picked block with room for the bytes asked for, and changes no other allocated block |
| `HeapAllocator.Heap.constructor` | Middleware/lwIP/core/mem.c:516-545 | mem_init leaves the initial heap, whatever the memory held before |
| `HeapAllocator.Heap.PlugHoles` | Middleware/lwIP/core/mem.c:474-510 | the in-place code computes the modelled plugging |
| `HeapAllocator.Heap.MemFree` | Middleware/lwIP/core/mem.c:617-686 | NULL does nothing; a pointer that is not accepted only counts as illegal; a held block, and no other, is taken from the allocated ones, `used` is lowered by its extent, and the heap stays in order |
| `HeapAllocator.Heap.MemTrim` | Middleware/lwIP/core/mem.c:699-820 | every path computes the modelled trim: NULL, the pointer unchanged, or the block shortened to exactly the end the code says, with `used` following and no other block touched; the assertions about the next pointer hold unless a free block is cut off the last block of the heap |
| `HeapAllocator.Heap.MemMalloc` | Middleware/lwIP/core/mem.c:831-976 | the in-place loops return the picked block and leave the modelled heap |
| `HeapAllocator.Heap.FindBlock` | Middleware/lwIP/core/mem.c:870-891 | the scan loop computes the modelled scan |
| `HeapAllocator.Heap.DeliverBlock` | Middleware/lwIP/core/mem.c:931-948 | the loop that moves lfree computes the modelled walk |
| `HeapRuns.DisturbKeeps` | Middleware/lwIP/core/mem.c:617-820 | mem_free and mem_trim, also while mem_malloc holds a block it has not returned, keep the invariant and every block they do not name, and leave all headers alone unless they set mem_free_count (what they do to the block they name: `RunFrees`, `RunTrims`, `OtherDoes`) |
| `HeapRuns.RunInv` | Middleware/lwIP/core/mem.c:473-976 | every state of every run of init, malloc, free and trim, with clients writing in between, satisfies the invariant: tiling, agreeing links, alignment, minimum size, no two free neighbours, lowest lfree, `used` equal to the extent of the allocated blocks |
| `HeapRuns.RunKeepsBlock` | Middleware/lwIP/core/mem.c:473-976 | over any stretch of a run a block keeps its place and extent unless it is freed or trimmed itself |
| `HeapRuns.FreeFrees` | Middleware/lwIP/core/mem.c:617-686 | mem_free of a held block takes exactly it from the allocated ones with its extent off `used`; of a pointer it rejects only counts it; of NULL does nothing |
| `HeapRuns.RunFrees` | Middleware/lwIP/core/mem.c:617-686 | the same for every mem_free in every run |
| `HeapRuns.RunTrims` | Middleware/lwIP/core/mem.c:699-820 | in every run a trim of a held block moves its end exactly to where the new size, the minimum size and the room for a free block put it, and touches no other block |
| `HeapRuns.EveryByteHeld` | Middleware/lwIP/core/mem.c:516-545 | every byte of the heap belongs to a block |
| `HeapRuns.OneHolder` | Middleware/lwIP/core/mem.c:516-545 | no byte belongs to two blocks, so live areas are disjoint |
| `HeapRuns.GapInOneBlock` | Middleware/lwIP/core/mem.c:462-473 | a stretch of free bytes always lies inside one block |
| `HeapRuns.NullMeansFull` | Middleware/lwIP/core/mem.c:831-976 | after NULL for a size in range no stretch of free bytes had room for a header and the rounded size |
| `HeapRuns.DoubleFreeRejected` | Middleware/lwIP/core/mem.c:651-659 | a block just freed is not accepted by mem_free again, also when it has been combined with the block in front |
| `HeapRuns.FreeBlockRejected` | Middleware/lwIP/core/mem.c:651-659 | the pointer of a block that is not allocated is not accepted at any time |
| `HeapRuns.LastBlockCanBeTrimmed` | Middleware/lwIP/core/mem.c:781-790 | in every heap with room for two blocks the assertion about the last block fails for a legal call |
| `HeapRuns.FirmwareConfig` | Middleware/lwIP/port/lwipopts.h:40-44 | the configured heap meets the conditions of the model |
| `HeapInterrupts.NextKeeps` | Middleware/lwIP/core/mem.c:861-969 | every step of mem_malloc between two openings of its lock, and every free or trim at an opening, keeps the invariant |
| `HeapInterrupts.TraceGood` | Middleware/lwIP/core/mem.c:861-969 | the heap is well formed at every step of every interleaving |
| `HeapInterrupts.TakenIsLowestFit` | Middleware/lwIP/core/mem.c:873-926 | the block taken is at that moment free, has room for the block size, which covers the bytes asked for, and is the lowest such block |
| `HeapInterrupts.NullJustified` | Middleware/lwIP/core/mem.c:861-975 | NULL comes only after a scan that started at lfree, that nothing disturbed, and during which at every moment nothing fitted |
| `HeapInterrupts.NullAtOnceIff` | Middleware/lwIP/core/mem.c:840-860 | in every interleaving mem_malloc returns NULL at once exactly for size 0 and for sizes whose true rounding exceeds the heap; otherwise it begins to scan at lfree |
| `HeapInterrupts.OtherDoes` | Middleware/lwIP/core/mem.c:861-969 | in every interleaving a free of a held block frees exactly it, a trim moves exactly its end, and mem_malloc in progress is not touched otherwise |
| `HeapInterrupts.ReturnedBlock` | Middleware/lwIP/core/mem.c:928-966 | on return the caller holds the block with room for all bytes asked for, and lfree is the lowest free block or ram_end |
| `HeapInterrupts.TraceKeepsBlock` | Middleware/lwIP/core/mem.c:861-969 | whatever is interleaved, a block keeps place and extent until it is freed or trimmed |
| `HeapInterrupts.Progress` | Middleware/lwIP/core/mem.c:861-969 | unless a free or trim restarts it, every step brings mem_malloc closer to its end, within 4 * MEM_SIZE_ALIGNED + 5 steps |
| `SelectList.LinkKeeps` | Middleware/lwIP/api/sockets.c:1770-1790 | linking puts the node in front and keeps both link directions agreeing |
| `SelectList.UnlinkKeeps` | Middleware/lwIP/api/sockets.c:1794-1816 | unlinking removes exactly that node from anywhere in the list |
| `SelectList.SelectCbList.LinkSelectCb` | Middleware/lwIP/api/sockets.c:1770-1790 | the in-place code puts the node in front and raises the generation counter |
| `SelectList.SelectCbList.UnlinkSelectCb` | Middleware/lwIP/api/sockets.c:1794-1816 | the in-place code takes the node out and raises the generation counter |
| `Select.WalkReady` | Middleware/lwIP/api/sockets.c:2594-2650 | the node a list walk stands on and the one it goes to are on the list |
| `SelectProofs.WaitersUpdate` | Middleware/lwIP/api/sockets.c:2035-2066 | one thread's step changes the number of watchers of a socket by its own contribution only |
| `SelectProofs.TurnsReady` | Middleware/lwIP/api/sockets.c:2525-2551 | an event that turns a condition ready always makes the waiters be checked (how events change the fields: `FieldsCount`) |
| `SelectProofs.PostKeeps` | Middleware/lwIP/api/sockets.c:2522-2566 | an event on a watched socket leaves every thread signalled or with a handler on its way, besides what was owed before (that it sets out itself: `EventReaches`) |
| `SelectProofs.ScanKeeps` | Middleware/lwIP/api/sockets.c:1848-1890 | reading a socket in the second scan keeps that guarantee |
| `SelectProofs.VisitKeeps` | Middleware/lwIP/api/sockets.c:2596-2650 | one step of the list walk, including its restarts, keeps that guarantee too |
| `SelectProofs.ListMoves` | Middleware/lwIP/api/sockets.c:1770-1816 | a thread entering or leaving the list makes every handler in flight start over and loses nothing |
| `SelectProofs.NextKeeps` | Middleware/lwIP/api/sockets.c:1963-2141 | every step of every thread, handler and socket keeps the whole invariant |
| `SelectProofs.NoTraceLosesWakeup` | Middleware/lwIP/api/sockets.c:2068-2092 | in every interleaving, a condition that became ready after the second scan read it as not ready has the thread signalled, or a handler in flight has still to come to it, or alloc_socket has made the socket writable behind its back; a signalled thread that waits has its semaphore raised and can wake |
| `SelectProofs.LostWakeupIff` | Middleware/lwIP/api/sockets.c:522-531 | in every interleaving a wakeup is lost that way exactly if alloc_socket made the socket writable during the present call, while the thread waited for that, unsignalled, and no handler was on its way to tell it |
| `SelectProofs.AllocLoses` | Middleware/lwIP/api/sockets.c:522-531 | the end of alloc_socket leaves a thread untold exactly in that case, and of what was lost before it leaves everything but what concerned this socket |
| `SelectProofs.HandlerDelivers` | Middleware/lwIP/api/sockets.c:2582-2654 | a handler on its way, left alone, signals the thread within as many steps as the list has nodes |
| `SelectProofs.TraceAssertions` | Middleware/lwIP/api/sockets.c:2106-2112 | select_waiting is positive whenever a thread takes its count back and never wraps, walks stay on the list, and no select call is signalled twice |
| `SelectEvents.FieldsCount` | Middleware/lwIP/api/sockets.c:2525-2551 | over every run, since a socket was opened: rcvevent is the number of receive events that came and were not taken back, sendevent is what the last send event or the opening made it, and errevent says whether an error came |
| `SelectEvents.EventReaches` | Middleware/lwIP/api/sockets.c:2553-2566 | over every run, after the first receive event, after a SENDPLUS on a socket that was not writable, and after every error, a handler is on its way to every thread that counts in the socket |
| `SelectEvents.HandlerStartsIff` | Middleware/lwIP/api/sockets.c:2525-2566 | over every run an event starts a handler exactly if it is news, that is the socket was not readable, or not writable, or there is an error, and somebody counts in the socket; with all that is ready then |
| `SelectEvents.WaiterTold` | Middleware/lwIP/api/sockets.c:2596-2650 | over every run, a thread that waits for a condition that is ready has been signalled and can go on, or a handler has still to come to it, or alloc_socket has made the socket writable behind its back |
| `SelectEvents.WaitsIff` | Middleware/lwIP/api/sockets.c:2068-2092 | over every run, at the end of its second scan a thread waits exactly if in this call it has found nothing ready, and leaves otherwise |
| `SelectEvents.WaitedFor` | Middleware/lwIP/api/sockets.c:1848-1890 | over every run, a thread that waits has looked at everything it watches in this call, and found nothing ready |
| `SelectEvents.SignalStems` | Middleware/lwIP/api/sockets.c:2596-2650 | over every run, a thread is signalled only for an event on a socket it watches that found a condition it watches ready |
| `SelectEvents.CallEnds` | Middleware/lwIP/api/sockets.c:1963-2141 | over every run a select call makes at most 3 * |watch| + 4 steps of its own, and can go on unless it waits or is over |
| `SelectEvents.HandlerWalks` | Middleware/lwIP/api/sockets.c:2582-2654 | every step of a handler brings it down the list or ends it, so that it is over after one step more than there are nodes unless the list changes |
| `SelectSlotsProofs.AfterKeeps` | Middleware/lwIP/api/sockets.c:1901-2160 | every step of marking, scanning, linking, counting, waiting and giving back, and every opening, use and close by other threads in between, keeps: the table counts exactly the uses the select calls have, every watched slot of a linked call is marked or was refused, and the invariants of select and of the table |
| `SelectSlotsRuns.RunAgrees` | Middleware/lwIP/api/sockets.c:1963-2180 | that holds in every state of every run |
| `SelectSlotsRuns.RefusedIff` | Middleware/lwIP/api/sockets.c:1902-1924 | over every run, a slot counts as refused to a call exactly if a pending free refused the mark in some step and it was not granted later in the same call |
| `SelectSlotsRuns.WaiterAtFreeSlotIff` | Middleware/lwIP/api/sockets.c:509-521 | over every run, at a slot that alloc_socket can take somebody waits exactly if a select call still counted in it had its mark refused by a pending free |
| `SelectSlotsRuns.AssertionFailsIff` | Middleware/lwIP/api/sockets.c:501-538 | over every run, the assertion that nobody waits for the slot being opened fails exactly if a select call counted in it had its mark refused by a pending free, or has marked it between the two halves of alloc_socket |
| `SelectSlotsRuns.AssertionHolds` | Middleware/lwIP/api/sockets.c:526 | it never fails in a run in which no mark meets a pending free or a slot that is being opened |
| `SelectSlotsRuns.FailingRun` | Middleware/lwIP/api/sockets.c:501-538 | a run from the start to a failure: a socket closed while in use, a mark refused, the slot freed and opened again, the call counted in, the slot closed and opened once more |
| `SelectSlotsRuns.EarlyRun` | Middleware/lwIP/api/sockets.c:517-526 | a run to a failure through a mark between the two halves of alloc_socket |
| `SelectSlotsRuns.LostRun` | Middleware/lwIP/api/sockets.c:522-531 | a run after which a select call waits for a socket that is writable, without having been told |
| `SelectSlotsCalls.LinksIff` | Middleware/lwIP/api/sockets.c:1989-2016 | over every run, at the end of its first scan a call goes on to link itself and wait exactly if in this call it has found nothing ready and there is time to wait; otherwise it gives its marks back |
| `SelectSlotsCalls.FirstMoves` | Middleware/lwIP/api/sockets.c:1828-1890 | a step of the first scan passes a socket that is not watched, looks at one that can be used, and leaves where one cannot |
| `SelectSlotsCalls.AgainMoves` | Middleware/lwIP/api/sockets.c:2147-2156 | the scan after waiting tries every watched socket in turn and stops where one cannot be used |
| `SelectSlotsCalls.SelectEnds` | Middleware/lwIP/api/sockets.c:1901-2180 | over every run, however sockets are opened, closed and used meanwhile, a select call makes at most 2 * (9 * |watch| + 11) steps of its own |
| `SocketSlots.SocketTable.SockIncUsed` | Middleware/lwIP/api/sockets.c:335-353 | a use of the slot is gained exactly while no free is pending; fd_used stays the number of holders, and no netconn changes |
| `SocketSlots.SocketTable.FreeSocketLocked` | Middleware/lwIP/api/sockets.c:548-567 | the netconn is given out exactly to the last holder; otherwise it stays, with the free pending; fd_used stays the number of holders and other slots stay as they are |
| `SocketSlots.SocketTable.DoneSocket` | Middleware/lwIP/api/sockets.c:377-401 | the netconn is given out exactly if the last holder leaves a slot with a pending free; fd_used stays the number of holders and other slots stay as they are |
| `SocketSlots.SocketTable.AllocSocket` | Middleware/lwIP/api/sockets.c:501-538 | takes the first slot without netconn and without holder, with the caller as its only holder, or none exactly when there is none |
| `SocketSlots.HolderCounts` | Middleware/lwIP/api/sockets.c:386-387 | fd_used is positive exactly when the slot has holders, so the assertions on it hold |
| `SocketSlots.StepSlot` | Middleware/lwIP/api/sockets.c:377-401 | a netconn is detached only by the last holder, and then nobody holds the slot |
| `SocketSlots.TraceGood` | Middleware/lwIP/api/sockets.c:334-611 | with threads in any order fd_used equals the number of holders, a pending free waits exactly as long as there are some, and no netconn is detached twice or sits in two slots |
| `SocketSlots.HeldConnStays` | Middleware/lwIP/api/sockets.c:371-375 | while a thread holds a slot its netconn is neither detached nor replaced |
| `SocketSlots.PendingStep` | Middleware/lwIP/api/sockets.c:342-344 | once a free is pending nobody gains the slot, exactly the last leaving holder completes the free, and only an unheld slot is allocated again |
| `SocketSlots.LockedAssertionIff` | Middleware/lwIP/api/sockets.c:361-364 | the assertion fails exactly for a slot whose pending free is complete and that is not allocated again |
| `SocketSlots.LockedAssertionCanFail` | Middleware/lwIP/api/sockets.c:361-364 | four steps that lead there |
| `EarlyEvents.NextKeeps` | Middleware/lwIP/api/sockets.c:2491-2535 | every step of an event or of lwip_accept keeps the count of events complete |
| `EarlyEvents.PublishCompleteIff` | Middleware/lwIP/api/sockets.c:668-671 | the replay is complete exactly when at most 32767 events came early |
| `EarlyEvents.TooManyEarly` | Middleware/lwIP/api/sockets.c:668-671 | a run in which 32768 events come early and none of them is replayed |
| `EarlyEvents.TraceGood` | Middleware/lwIP/api/sockets.c:663-680 | early events, owed replays, events in flight, rcvevent and events taken always make up the events posted |
| `EarlyEvents.NoneLost` | Middleware/lwIP/api/sockets.c:663-680 | once everything has settled rcvevent is the number of events posted and not taken |
| `EarlyEvents.Settles` | Middleware/lwIP/api/sockets.c:2485-2524 | in every run from where the socket is published, every step of what is in flight brings the end nearer: after a number of steps given by what is owed and what has come since, all events are counted |
| `StreamRecv.StreamSocket.Fetch` | Middleware/lwIP/api/api_lib.c:703-769 | takes the next item from the mailbox: data that is at hand is never refused, and it fails only where none is; the end of the stream comes back only with all bytes in front of it delivered and not after a reset, and always when it is next; one that cannot be reported now is remembered and reported next |
| `StreamRecv.StreamSocket.Consume` | Middleware/lwIP/api/sockets.c:964-1001 | copies a prefix of the pbuf and, unless peeking, keeps exactly the rest |
| `StreamRecv.StreamSocket.Recv` | Middleware/lwIP/api/sockets.c:919-1017 | delivered bytes, lastdata and queued data always make up the received stream; what is read is all that was asked for, or all there was up to an empty mailbox, the end of the stream or an error, and at least the data at hand at the call, exactly that if nothing arrives; a peek consumes nothing and shows the beginning of one pbuf, the next one; without data only nothing at hand is reported; the window is credited with exactly the bytes delivered; the end of the stream is reported when exactly the bytes that came before it have been delivered, and then always |
| `NetconnModel.NextGood` | Middleware/lwIP/api/api_msg.c:356-505 | every message and callback keeps: current_msg is set exactly in WRITE, CLOSE and CONNECT, its thread still waits, every other message has been signalled once with its error stored before, or has lost its place and not been signalled |
| `NetconnModel.DoWriteGood` | Middleware/lwIP/api/api_msg.c:1816-1861 | the same invariant after a write posted in any state |
| `NetconnModel.DoCloseGood` | Middleware/lwIP/api/api_msg.c:1937-2007 | the same invariant after a close or shutdown posted in any state |
| `NetconnModel.CloseInternalGood` | Middleware/lwIP/api/api_msg.c:923-1106 | the same invariant after every outcome of an attempt to close; a successful close of both directions leaves no pcb |
| `NetconnModel.DelconnGood` | Middleware/lwIP/api/api_msg.c:1116-1209 | the same invariant after a deletion posted in any state |
| `NetconnModel.DoConnectGood` | Middleware/lwIP/api/api_msg.c:1353-1418 | the same invariant after a connect posted in any state |
| `NetconnModel.ConnectedGood` | Middleware/lwIP/api/api_msg.c:1304-1342 | the same invariant after the connected callback, which wakes the connecting thread |
| `NetconnModel.PollGood` | Middleware/lwIP/api/api_msg.c:357-388 | the same invariant after the poll callback, in whatever state it comes |
| `NetconnModel.SentGood` | Middleware/lwIP/api/api_msg.c:398-422 | the same invariant after the sent callback, in whatever state it comes |
| `NetconnModel.ErrTcpGood` | Middleware/lwIP/api/api_msg.c:432-505 | the same invariant after the error callback, which ends any operation in progress |
| `NetconnModel.SecondClose` | Middleware/lwIP/api/api_msg.c:1984 | where a close is attempted, the assertion that there is no current_msg holds exactly when no close is in progress |
| `NetconnModel.LostIff` | Middleware/lwIP/api/api_msg.c:1969-1987 | in every run a posted message loses its place, and its thread is never woken, exactly if another close is posted while its own is in progress |
| `NetconnModel.SecondCloseExample` | Middleware/lwIP/api/api_msg.c:1969-1987 | two closes, the first of which finds no memory, lead there |
| `NetconnModel.AnsweredOnce` | Middleware/lwIP/api/api_msg.c:85-93 | in every run each posted message is in progress, or has been signalled exactly once with its error stored, or has lost its place; after a successful close of both directions there is no pcb |
| `NetconnModel.CloseEnds` | Middleware/lwIP/api/api_msg.c:366-373 | a close that keeps its place is answered after at most polls_left polls, however often memory runs out |
| `NetconnModel.CloseTurns` | Middleware/lwIP/api/api_msg.c:923-1106 | a close in progress is answered exactly when TCP reports an error, or comes and has memory or no polls are left; with which error, and exactly when the pcb goes |
| `NetconnModel.WhyClosed` | Middleware/lwIP/api/api_msg.c:1116-2007 | in every run a close or delete that has not been answered is in progress or has lost its place; one that has been answered was refused when it was posted, or by what TCP said in a certain step |
| `NetconnWrites.NextKeeps` | Middleware/lwIP/api/api_msg.c:1643-1861 | every message and callback, with lwip_netconn_do_writemore deciding about the writes, keeps: a write acknowledged without error has written everything, and one in progress has vectors left |
| `NetconnWrites.OkMeansWritten` | Middleware/lwIP/api/api_msg.c:1728-1806 | in every run, when a write has been answered without error, TCP has been given exactly the bytes of its vectors, in order (the other direction: `RoomMeansOk`, `WhyAnswered`) |
| `NetconnWrites.WhyAnswered` | Middleware/lwIP/api/api_msg.c:1643-1861 | in every run a write not answered is in progress; one answered with an error was refused when it was posted, or tcp_write or the error callback reported that error, or there was no route |
| `NetconnWrites.RoomMeansOk` | Middleware/lwIP/api/api_msg.c:1760-1806 | in every run, when TCP comes with room for the rest, memory and a route, the write in progress is answered without error; with less room it goes on by exactly as much |
| `NetconnWrites.RoomAtOnce` | Middleware/lwIP/api/api_msg.c:1816-1861 | a write that begins is answered at once exactly when there is room for everything |
| `NetconnWrites.NoRouteEnds` | Middleware/lwIP/api/api_msg.c:1760-1790 | without a route the write in progress is over, with an error |
| `NetconnWrites.Refines` | Middleware/lwIP/api/api_msg.c:1643-1861 | every step with the bytes is a step of the netconn machine without them |
| `Netconn.TcpNetconn.DoCloseInternal` | Middleware/lwIP/api/api_msg.c:923-1106 | the message in progress is answered unless there is no memory and a poll is left, with which error, and when the pcb goes; no other message is touched |
| `Netconn.TcpNetconn.HandleWrite` | Middleware/lwIP/api/api_msg.c:1816-1861 | the message posted is answered or becomes current_msg, and exactly when; with which error; no other message and no operation in progress is touched; the invariant is kept |
| `Netconn.TcpNetconn.HandleClose` | Middleware/lwIP/api/api_msg.c:1937-2007 | a close or shutdown posted in any state is answered or becomes current_msg, exactly when and with which error, and exactly when the pcb goes; a write or connect in progress stays, a close in progress loses its place; no other message is touched |
| `Netconn.TcpNetconn.HandleDelconn` | Middleware/lwIP/api/api_msg.c:1116-1209 | a deletion is refused while something is in progress, which is not disturbed; otherwise it is answered or becomes current_msg, exactly when and with which error, and exactly when the pcb goes |
| `Netconn.TcpNetconn.HandleConnect` | Middleware/lwIP/api/api_msg.c:1353-1418 | a connect becomes current_msg exactly if the netconn was idle and TCP has begun to connect, and is answered at once otherwise, with which error; no other message and no operation in progress is touched |
| `Netconn.TcpNetconn.OnPoll` | Middleware/lwIP/api/api_msg.c:357-374 | only the message in progress can change: it stays, or is signalled once with its error stored; a close goes on only without memory and with polls left, one less each time |
| `Netconn.TcpNetconn.OnSent` | Middleware/lwIP/api/api_msg.c:398-411 | only the message in progress can change: a write or close stays, exactly when it is to be continued, or is signalled once with its error stored; no poll is counted |
| `Netconn.TcpNetconn.OnError` | Middleware/lwIP/api/api_msg.c:432-505 | the message in progress is signalled, a close with success and anything else with the error; then nothing is in progress and there is no pcb |
| `Netconn.TcpNetconn.OnConnected` | Middleware/lwIP/api/api_msg.c:1304-1342 | the connecting thread is signalled once with the error, and nothing is in progress any more |
| `VectorWrite.TotalSize` | Middleware/lwIP/api/api_lib.c:1020-1040 | the sum of the vector lengths, cut to SSIZE_MAX, or an error exactly when it overflows size_t |
| `VectorWrite.AdvanceKeeps` | Middleware/lwIP/api/api_msg.c:1715-1728 | whatever TCP accepts, the bytes handed over continue the concatenated vectors |
| `VectorWrite.RoundsPrefix` | Middleware/lwIP/api/api_msg.c:1679-1729 | over all rounds the bytes given to tcp_write are the first `offset` bytes of the concatenated vectors, for vectors of any length |
| `VectorWrite.StallsIff` | Middleware/lwIP/api/api_msg.c:1704-1714 | a round makes no progress and asks for another exactly when the buffer is full and a positive multiple of 65536 bytes is left of a vector that is not the last |
| `VectorWrite.StallExample` | Middleware/lwIP/api/api_msg.c:1704-1714 | 65536 bytes and another vector do so on a full buffer |
| `VectorWrite.EndsIff` | Middleware/lwIP/api/api_msg.c:1679-1729 | the loop of a call ends exactly when the connection does not block, the send buffer does not get full at such a place, or tcp_write fails at some time |
| `VectorWrite.RoundJams` | Middleware/lwIP/api/api_msg.c:1704-1729 | where the buffer will be full does not change while it is filled; at such a place there is always another round, otherwise every further round makes progress |
| `VectorWrite.AssertionFailsIff` | Middleware/lwIP/api/api_msg.c:1658-1661 | over all sequences of calls that do not acknowledge the message, one can leave nothing to write for the next exactly when the last vector is empty |
| `VectorWrite.FinalMeans` | Middleware/lwIP/api/api_msg.c:1679-1729 | a call without error writes exactly as much as there is room for, or all; an error is what tcp_write returned, or that a nonblocking write finds no room from the start |
| `VectorWrite.TrailingEmptyVector` | Middleware/lwIP/api/api_msg.c:1658-1661 | one byte and an empty vector: a call returns with the byte written and the message not acknowledged |
| `VectorWrite.Writer.WriteMore` | Middleware/lwIP/api/api_msg.c:1643-1806 | whenever its loop ends: without error and with a route a blocking write is finished, with ERR_OK, exactly when everything is written; a nonblocking one is always over and, with memory and a route, succeeds exactly when it wrote something; as much is written as there is room for; any other error is the one tcp_write returned, ERR_RTE without a route, or ERR_WOULDBLOCK with nothing written; exactly when a message is left unacknowledged, and then something is left to write unless the last vector is empty |
| `DnsProofs.CallUpToIs` | Middleware/lwIP/core/dns.c:961-968 | exactly the requests waiting for the entry are cleared, each of them answered once |
| `DnsProofs.CheckEntryGood` | Middleware/lwIP/core/dns.c:1047-1118 | a timer step of any entry keeps the tables in order: waiting requests point to pending entries, pending entries have distinct transaction ids and a timer of 1, 1, 2, 3 ... ticks |
| `DnsProofs.ReceiveGood` | Middleware/lwIP/core/dns.c:1250-1354 | every kind of reply keeps the tables in order |
| `DnsProofs.EnqueueGood` | Middleware/lwIP/core/dns.c:1375-1503 | every call keeps the tables in order, also when it joins a pending query or is refused |
| `DnsRuns.OneMatch` | Middleware/lwIP/core/dns.c:1195-1198 | a reply belongs to at most one entry |
| `DnsRuns.AskKeeps` | Middleware/lwIP/core/dns.c:1412-1444 | a new query changes no pending entry and no occupied request slot |
| `DnsRuns.RightAnswers` | Middleware/lwIP/core/dns.c:942-973 | an address found is passed to every call waiting for the name, and a name given up is reported as such to all of them |
| `DnsRuns.AskingAges` | Middleware/lwIP/core/dns.c:1070-1102 | a tick of a pending entry takes at least one tick off the time it has left, counted over retries and servers |
| `DnsRuns.ReceiveLocal` | Middleware/lwIP/core/dns.c:1250-1354 | a reply touches only its entry and never gives it more time |
| `DnsRuns.TraceGood` | Middleware/lwIP/core/dns.c:1384-1502 | every reachable table is in order |
| `DnsRuns.ExactlyOnce` | Middleware/lwIP/core/dns.c:961-968 | at every moment of every run each call accepted with ERR_INPROGRESS waits in one slot or has had its callback, exactly once |
| `DnsRuns.AnsweredInTime` | Middleware/lwIP/core/dns.c:1070-1102 | DNS_MAX_SERVERS * (1 + R (R - 1) / 2) ticks without a reply answer every call accepted before, twice as many whatever the replies are |
| `DnsNames.WaitsForName` | Middleware/lwIP/core/dns.c:1385-1410 | over every run a request waits for an entry with the name its call asked for, up to letter case, and of the family asked for or the fallback |
| `DnsNames.StepAnswers` | Middleware/lwIP/core/dns.c:942-1363 | in every step, who waits is told an address exactly if this reply to the query waited for brings it, and that there is none exactly if the query is given up, for which reason |
| `DnsNames.AnswerStems` | Middleware/lwIP/core/dns.c:942-1363 | over every run a callback with an address stems from a reply to a query for the name its call asked for; one without from giving up such a query, or from there being no server |
| `DnsNames.AskAnswers` | Middleware/lwIP/core/dns.c:1375-1503 | a call makes a callback at once only for itself, exactly if it needs a query and no server is set |
| `DnsNames.LookupIs` | Middleware/lwIP/core/dns.c:602-632 | dns_lookup finds an address exactly if a cached entry has the name in the family asked for, and then the first one's |
| `DnsNames.LookupStems` | Middleware/lwIP/core/dns.c:602-632 | over every run an address found in the cache came in a reply to a query for this name, in the family asked for |
| `DnsQueries.QueryAsks` | Middleware/lwIP/core/dns.c:747-1118 | over every run, for a query under way its question has been sent retries + 1 times to its server, before that DNS_MAX_RETRIES times to each earlier one unless that one reported a failure, to no other, and nothing else for this family |
| `DnsQueries.TimeRuns` | Middleware/lwIP/core/dns.c:1070-1102 | over every run, without replies a query under way loses exactly one tick of its time per tick: 1, 1, 2, 3 ... ticks between questions, server after server |
| `DnsQueries.FailureGoesOn` | Middleware/lwIP/core/dns.c:1250-1266 | after a failure reported by its server a query goes on with the backup server, if one is set, and nobody is called |
| `DnsQueries.NothingGoesOn` | Middleware/lwIP/core/dns.c:1333-1347 | after a reply without a useful address a query for either family asks the first server for the other one |
| `DnsQueries.GivenUpAfter` | Middleware/lwIP/core/dns.c:1070-1102 | over every run, a call told by a tick that there is no address asked for a name whose query asked every server DNS_MAX_RETRIES times, or was told of a failure, with no further server set; or its server has been taken away |
| `DnsQueries.AcceptedIff` | Middleware/lwIP/core/dns.c:1375-1503 | a call is accepted exactly if there is a request slot and its name is being asked for or an entry can be had; a name that is being asked for begins no query and sends nothing; a refused call changes nothing |
| `DnsQueries.TraceSingle` | Middleware/lwIP/core/dns.c:1383-1410 | over every run, of the queries under way for both families no two have the same name and the same order of families |
| `Dns.StrNICmp` | Middleware/lwIP/core/def.c:162-189 | the loop of lwip_strnicmp returns 0 exactly for names that are equal up to letter case |
| `DnsCache.EvictsOldest` | Middleware/lwIP/core/dns.c:1414-1444 | when no entry is unused and ages stay below 256 the oldest completed entry makes room |
| `DnsCache.NoVictimIff` | Middleware/lwIP/core/dns.c:1414-1439 | a full table refuses a query exactly when every completed entry is a multiple of 256 queries old |
| `DnsCache.NoVictimExample` | Middleware/lwIP/core/dns.c:1414-1439 | a run of 256 queries after which a table of two entries refuses one although it holds a completed entry |
| `DnsCache.AnswerGranted` | Middleware/lwIP/core/dns.c:1137-1164 | an answer is granted min(ttl, DNS_MAX_TTL) ticks, and not kept when that is zero |
| `DnsCache.CachedWithinTtl` | Middleware/lwIP/core/dns.c:1103-1110 | over any run a cached answer ages by one with every tick and is gone before the ticks granted are over |
| `Dns.Resolver.CallFound` | Middleware/lwIP/core/dns.c:942-973 | the loop over the request slots computes the modelled callbacks |
| `Dns.Resolver.CreateTxid` | Middleware/lwIP/core/dns.c:1000-1018 | ends, and returns an id no pending entry has |
| `Dns.Resolver.CheckEntry` | Middleware/lwIP/core/dns.c:1047-1118 | the code in place computes the modelled timer step, with a fresh id for a new query |
| `Dns.Resolver.CheckEntries` | Middleware/lwIP/core/dns.c:1124-1131 | the loop over the table is one modelled tick |
| `Dns.Resolver.CorrectResponse` | Middleware/lwIP/core/dns.c:1137-1164 | the code in place computes the modelled answer |
| `Dns.Resolver.Recv` | Middleware/lwIP/core/dns.c:1170-1363 | a packet too short changes nothing; of any other, finding the entry by its id, reading it and acting on it is one modelled step |
| `Dns.LookupAnswered` | Middleware/lwIP/core/dns.c:1170-1363 | from bytes to tables: an encoded reply from the server asked that repeats the question has the effect of its first address of the right family, of a failure, or of nothing useful |
| `Dns.AddressRead` | Middleware/lwIP/core/dns.c:1170-1363 | from bytes to callbacks, over every run: an address passed to a call stands in a datagram from the server that was asked, with the transaction id, in reply to a question with the name and family that call asked for |
| `DnsReply.ReadAnswers` | Middleware/lwIP/core/dns.c:1268-1331 | the loop over the answers computes the modelled reading, with 16-bit offsets |
| `DnsReply.ReadReply` | Middleware/lwIP/core/dns.c:1200-1266 | the checks of header and question, in order, and the loop compute the modelled reading |
| `DnsReply.SkipWireName` | Middleware/lwIP/core/dns.c:708-739 | the offset behind any name, compressed or not, is found |
| `DnsReply.SkippedIff` | Middleware/lwIP/core/dns.c:708-739 | of all names with nonempty labels, compressed or not, exactly the bare root name is not skipped to its end |
| `DnsReply.AnswersEncoded` | Middleware/lwIP/core/dns.c:1268-1331 | any number of encoded records reads as the first address of the right family among them |
| `DnsReply.NumberTells` | Middleware/lwIP/core/dns.c:1300-1325 | addresses read as the same number are the same bytes |
| `DnsReply.ReplyUnderstood` | Middleware/lwIP/core/dns.c:1184-1349 | an encoded reply reads as what its records say, whatever the letter case of the question and whatever follows the answers |
| `DnsReply.CompareMeans` | Middleware/lwIP/core/dns.c:651-698 | whatever is accepted as a name, encoded labels stand there up to a zero byte, and the query text holds them |
| `DnsReply.SpelledIff` | Middleware/lwIP/core/dns.c:651-698 | an accepted name is the one asked for exactly if it is as long and the text has dots where its labels end |
| `DnsReply.BeginningAccepted` | Middleware/lwIP/core/dns.c:651-698 | every beginning of the name asked for is accepted as a name of one label |
| `DnsReply.FoundMeans` | Middleware/lwIP/core/dns.c:1200-1331 | an address is taken from a packet only if it is a response without error from the server asked, with one question whose labels stand in the text of the name and whose type and class were asked for; it is the address of the first record of the right family behind the question, among as many as the header announces |
| `Dns.Resolver.Enqueue` | Middleware/lwIP/core/dns.c:1375-1503 | the loops for duplicates, unused or oldest entries and free request slots are one modelled step (whose name, and who is answered: `WaitsForName`, `AskAnswers`) |
| `Dns.Resolver.LookupName` | Middleware/lwIP/core/dns.c:602-632 | the loop computes the modelled lookup |
| `DnsCodec.Labels` | Middleware/lwIP/core/dns.c:793-799 | the labels of a hostname: joined with dots they are the hostname, and none contains a dot |
| `DnsCodec.Encode` | Middleware/lwIP/core/dns.c:788-810 | the loop writes the labels behind their lengths and a zero byte: strlen + 2 bytes |
| `DnsCodec.CompareName` | Middleware/lwIP/core/dns.c:651-698 | the nested loops compute the modelled comparison |
| `DnsCodec.SkipName` | Middleware/lwIP/core/dns.c:708-739 | ends, and computes the modelled skip, with failure at the end of 16-bit offsets |
| `DnsCodec.CompareEncoded` | Middleware/lwIP/core/dns.c:651-698 | an encoded name is accepted exactly when the query text holds its labels at their places up to letter case, and then the offset behind it comes back |
| `DnsCodec.SkipEncoded` | Middleware/lwIP/core/dns.c:708-739 | the offset behind every encoded name is found |
| `DnsCodec.SkipCompressed` | Middleware/lwIP/core/dns.c:718-722 | the offset behind a compression pointer after any number of labels is found |
| `DnsCodec.RoundTrip` | Middleware/lwIP/core/dns.c:788-810 | what is encoded for a hostname is recognised whatever its letter case, and skipped, to exactly strlen + 2 bytes further on |
| `DnsCodec.DotNotChecked` | Middleware/lwIP/core/dns.c:668-686 | a name without the dot is accepted for the name with it |
| `DnsCodec.RootMisread` | Middleware/lwIP/core/dns.c:713-733 | a bare root name is never skipped by its one byte |
| `ChecksumModel.SumIsRfc1071` | Middleware/lwIP/core/inet_chksum.c:69-78 | summing first and folding once equals the end-around carry at every word of section 1 of RFC 1071 |
| `ChecksumModel.SwapChksum` | Middleware/lwIP/core/inet_chksum.c:110-113 | summing in the other byte order gives the swapped checksum |
| `Checksum.Chksum1` | Middleware/lwIP/core/inet_chksum.c:80-114 | version 1 computes the checksum up to 0x20002 bytes; beyond, exactly the wrapped sum |
| `Checksum.Chksum2` | Middleware/lwIP/core/inet_chksum.c:133-173 | version 2 computes the checksum up to 0x20002 bytes at every address |
| `Checksum.Chksum3` | Middleware/lwIP/core/inet_chksum.c:189-255 | version 3 computes the checksum for every length at every address |
| `Checksum.LengthLimit` | Middleware/lwIP/core/inet_chksum.c:125-126 | a wrapping 32-bit sum is right for all buffers of a length exactly up to 0x20002 bytes |
| `ChecksumPbuf.ChainStep` | Middleware/lwIP/core/inet_chksum.c:269-277 | adding a segment to a sum kept swapped behind an odd number of bytes gives the sum of both |
| `ChecksumPbuf.InetChksumPbuf` | Middleware/lwIP/core/inet_chksum.c:568-588 | the checksum of the concatenated payload, however it is cut into pbufs |
| `ChecksumPbuf.InetChksumPseudo` | Middleware/lwIP/core/inet_chksum.c:310-327 | the checksum over addresses, protocol, length and payload in that order |
| `ChecksumPbuf.SumPartial` | Middleware/lwIP/core/inet_chksum.c:399-429 | the sum over the first chksum_len bytes although oddness is taken from the whole pbuf; the assertion in the loop holds exactly when less than 0x7fff bytes are left behind the first pbuf |
| `ChecksumPbuf.PartialExample` | Middleware/lwIP/core/inet_chksum.c:416 | one byte and then 0x8000 bytes that count: the assertion fails |
| `ChecksumPbuf.InetChksumPseudoPartial` | Middleware/lwIP/core/inet_chksum.c:399-473 | the checksum over the pseudo header and that prefix |
| `ChecksumPbuf.StoredChecksum` | Middleware/lwIP/core/inet_chksum.c:555-558 | with its checksum stored in a zeroed field at an even offset every buffer has the checksum zero |
| `ChecksumPbuf.NetChksum` | UnitTest/EMAC_TxRx/net.c:59-71 | the 16-bit carry loop computes the same checksum on a little-endian host |
| `ChecksumPbuf.NetHeaderAccepted` | UnitTest/EMAC_TxRx/net.c:120-124 | the header checksum stored by udp_send makes the header's checksum zero |
| `Pool.MetTwice` | Middleware/lwIP/core/memp.c:97-99 | a list that meets an element twice never ends |
| `Pool.Meets` | Middleware/lwIP/core/memp.c:105-112 | on a list that does not end the two pointers meet within as many rounds as there are elements |
| `Pool.Sanity` | Middleware/lwIP/core/memp.c:101-116 | the cycle test ends on every list shape, whatever the memory outside the list holds, and returns 1 exactly when the list has an end |
| `Pool.MemPool.constructor` | Middleware/lwIP/core/memp.c:175-215 | after initialisation of any memory all elements are on the list, once each |
| `Pool.MemPool.Malloc` | Middleware/lwIP/core/memp.c:257-299 | takes the first element, or fails exactly when the list is empty; free list and allocated elements stay a partition, the statistics follow, and no memory is written |
| `Pool.MemPool.Write` | Middleware/lwIP/include/lwip/priv/memp_priv.h:58-65 | a client may write every word of its element, the link word included: free list, partition and all other elements stay as they are |
| `Pool.MemPool.Free` | Middleware/lwIP/core/memp.c:359-412 | NULL does nothing; a held element goes to the front, the partition is kept and what others hold is not written; the sanity assertion holds exactly if the element was held, so that freeing twice is noticed |
| `Pool.NoForeignLink` | Middleware/lwIP/core/memp.c:193-206 | no word of one element belongs to another |

## Left out

- Guard bytes (`MEM_OVERFLOW_CHECK`, `MEMP_OVERFLOW_CHECK`), the libc and pool variants of `mem_malloc`, and debug output.
- HeapRuns.RunInv: clients free and trim only blocks they hold, or pointers the code rejects itself; what a corrupted header would do is not modelled.
- HeapRuns.DoubleFreeRejected: is about the next call; later, a stale pointer into the middle of a block is accepted if the bytes there look like a header.
- SelectProofs.NoTraceLosesWakeup: `rcvevent` and `select_cb_ctr` are unbounded integers, so a wrap of the 32-bit counter within one opening of the lock is not modelled; data in `lastdata` is not an event.
- SelectSlotsRuns.RunAgrees: at most 255 uses of one slot at a time; writing the events of a new socket at the end of alloc_socket is one step; a semaphore can always be had, and the fd_sets handed back are left out.
- SocketSlots.TraceGood: at most 255 uses of one slot at a time, as the assertions on `fd_used` demand; `lastdata` is freed along with the netconn and not modelled.
- EarlyEvents.TraceGood: at most 32767 events unread and at most 32767 uncounted; the socket stays open.
- StreamRecv.StreamSocket.Fetch: waiting in an empty mailbox ends with an error; the codes of errors are not told apart.
- NetconnModel.NextGood: blocking netconns without `LWIP_NETCONN_FULLDUPLEX`, `LWIP_SO_LINGER`, `LWIP_SO_SNDTIMEO` or core locking; what TCP returns is unrestricted.
- NetconnWrites.OkMeansWritten: an error callback brings an error; calls of lwip_netconn_do_writemore whose loop does not end are no steps.
- VectorWrite.Writer.WriteMore: is about calls whose loop ends (`EndsIff` says which); totals above SSIZE_MAX and the events sent to the socket layer are left out.
- DnsRuns.ExactlyOnce: callbacks do not call the resolver, and every call passes one; random source ports, mDNS and the local host list are left out.
- Dns.Resolver.Recv: whether a packet comes from a server's address is an argument.
- Dns.Resolver.CreateTxid: with the counter `dns_txid`; a random generator need not come to an end.
- DnsCodec.Encode: names of at most 255 bytes, as the table holds them.
- ChecksumPbuf.InetChksumPseudo: the IPv6 form and the copying forms of the checksum would add nothing new.
- `lwip_poll`, socket options, address conversion, multicast membership, UDP and raw netconns, drivers, and the demo clients.
