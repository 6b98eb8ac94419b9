# A verified model of a small distributed file system on bare-metal ARM

The system is a distributed file system for networked Raspberry Pis: chunkservers keep chunks as files on a
FAT32 SD card, a master watches them by heartbeats, clients exchange 32-byte radio packets with both, and
all of it runs on a preemptive thread scheduler with a shared console. This project models that code in Dafny
and proves what it is meant to guarantee.

The parts build on each other:

- `Machine`, `FatTable`, `ChainStore`, `Names`, `Directory`, `DiskLayout`, `Catalog`, `Volume`, `FileApi`: the
  FAT32 driver. `FatTable` and `ChainStore` treat the allocation table and chain writes as values, `Directory`
  the 32-byte entries, `DiskLayout` the card as bytes. `Catalog` is the whole-volume invariant: every start
  cluster heads a chain, no cluster is in two chains, no allocated cluster is in none, every chain but the root
  is referred to by exactly one named entry. `Volume` is the driver as a class over the in-memory table and the
  card; its methods are proved against the values and keep the invariant. `FileApi` states the result in terms
  of file contents.
- `Scheduler`, `SchedulerRuns`, `IntrusiveQueue`, `Kernel`: the preemptive scheduler and the stdio lock as a transition system
  with theorems over every run, the pointer-level queues, and the scheduler's own code as a class that moves
  thread blocks between those queues. `Kernel.Valid()` contains the invariant of the transition system and the
  linking of the queues. The constructor establishes it, and every event method keeps it and is one step of the
  system, so both hold of every run of the class. That a block is in no queue when it is enqueued, which the
  linked queues need, follows from the invariant at every call.
- `Ring`, `Radio`: the lock-free ring under every interleaving of its memory accesses, and packet framing with
  interrupts before every memory access of a read.
- `Heartbeat`: master and chunkservers over a radio that loses, delays, duplicates and reorders packets.
- `Fragmentation`, `ChunkServer`: sixteen-byte fragmentation, the chunkserver's handlers over the FAT32 volume,
  and the end-to-end transfer.
- `Random`, `Crc`, `PrintScan`: the random generator, the CRC and the number printer against the scanner.

Conventions. Machine words are bounded integers (`Machine.Word`), and wrap-around is written out. A call to
`panic` is the outcome `Panicked`. Ghost parameters such as the chain or the blocks of a buffer name what the
caller knows. The memory behind a buffer, which the chain write reads up to a whole cluster, and the packets that
arrive during a read are parameters, so the results hold for all of them. Memory from `kmalloc`, which is only
linked as a binary, is taken to be zero-filled: `fs_append` relies on it for the NUL behind the string it builds. Table entries and directory entries
are laid out as in the sections "FAT Data Structure" and "FAT Directory Structure" of Microsoft's FAT
specification, version 1.03. `Catalog.FormattedIsConsistent` shows that volumes satisfying the invariant exist:
a freshly formatted one of any size does.

Where the code does not do what it is for, the model keeps the code and the exact condition is proved:
`WriteHasRightLengthIff` (which sizes a chain write gets right, with `ShrinkingWriteLeaks` and `GrowMeaning` for
the others), `DeleteOrphansNothingIff`, `CreatedDirOkIff`, `ReadMatchIsKeyEquality` (reading never finds a name
without an extension), `ChunkNameValidIff`, `AnswerStaysInsideIff` and `SendingNeverEndsIff` (which queries a
chunkserver answers from its chunk, and which without end), `ForkKeepsIff` (thread ids wrap, with `TidZeroBreaksTheLock`), `SweepCountsRightIff`
(with `SilentServerDrifts`), `SeedRange`, `LeftByInitState` (with `StreamIsLost`),
`PassGrantsIff` (with `RequestersCanStarve`: the lock is not fair), `SearchLeavesCardIff`.

`dafny verify dfyconfig.toml` checks everything.

## Model

| member | source | states |
|---|---|---|
| `FatTable.EntryTypes` | fat32/fat32-helpers.c:107-123 | for every word: free iff the low 28 bits are 0, used iff 2 to 0xFFFFFEF, bad iff 0xFFFFFF7, last iff at least 0xFFFFFF8, a panic iff between those; the driver's end mark is 0xFFFFFFFF |
| `FatTable.ChainIsAcyclic` | fat32/fat32.c:114-131 | a cluster sequence linked by the table and closed by an end mark never visits a cluster twice: acyclicity follows from ending |
| `FatTable.ChainIsUnique` | fat32/fat32.c:114-131 | the start cluster determines the whole chain, so every walk sees the same clusters |
| `FatTable.ChainIsShort` | fat32/fat32.c:123-129 | pigeonhole: a chain has fewer clusters than the table has entries, which bounds every walk |
| `FatTable.ChainFrame` | fat32/fat32.c:123-129 | a chain depends on the entries of its own clusters only: any other change of the table leaves it a chain |
| `FatTable.ChainIsAllocated` | fat32/fat32.c:394-411 | no cluster of a chain is free, so the first-free search never returns one |
| `FatTable.FirstFree` | fat32/fat32.c:394-411 | the least free cluster from a starting point on; everything before it is in use, and the table length means there is none |
| `ChainStore.GrowMeaning` | fat32/fat32.c:504-524 | for every number of blocks that fits: the growth loop takes each fresh cluster on two passes, links exactly the first ceil(n/2) free clusters, and each holds the later of its two blocks |
| `ChainStore.GrowFull` | fat32/fat32.c:504-524 | the growth loop runs out of clusters exactly when fewer are free than it takes |
| `ChainStore.WriteChainFullIff` | fat32/fat32.c:429-536 | a write fails for lack of clusters exactly when it needs more than the chain has and too few are free |
| `ChainStore.WriteChainGrows` | fat32/fat32.c:493-524 | a growing write keeps the old clusters in front and appends those the growth loop takes |
| `ChainStore.WriteHasRightLengthIff` | fat32/fat32.c:429-536 | the returned chain has as many clusters as blocks were written if and only if nothing is written, or the new length is the old one or one more |
| `ChainStore.ShrinkingWriteLeaks` | fat32/fat32.c:464-474 | a write that shortens the chain to a non-empty one returns start cluster 0 while the kept clusters stay allocated |
| `ChainStore.WriteChainStores` | fat32/fat32.c:429-536 | inside that domain the blocks lie in order along the returned chain and no other cluster or table entry changed |
| `ChainStore.WriteConservesClusters` | fat32/fat32.c:429-536 | conservation: free clusters plus clusters of the file are the same before and after a write, and a growing file takes only clusters the search can find |
| `Names.IsValidName` | fat32/fat32-helpers.c:190-214 | the scan accepts exactly the names of 1 to 8 upper-case letters or digits, or 1 to 8 of them with a three-character extension |
| `Names.ValidNameMeans` | fat32/fat32-helpers.c:190-214 | the names by length and character code |
| `Names.SetName` | fat32/fat32-helpers.c:216-230 | filling the 11 bytes in place gives the key of the name: base padded to 8, extension to 3 |
| `Names.KeyBytes` | fat32/fat32-helpers.c:216-230 | the key byte by byte: base, spaces up to eight, extension or spaces |
| `Names.FormatName` | fat32/fat32-helpers.c:164-188 | for every key: trimmed base, a dot, three extension bytes, NUL-terminated, within the static buffer; the dot goes in front of the buffer exactly when the base is all spaces |
| `Names.PrintedBytes` | fat32/fat32-helpers.c:164-188 | the printed form byte by byte, for every key |
| `Names.PrintedKey` | fat32/fat32-helpers.c:164-230 | printing the key of a valid name gives the name back, with a dot and padding when it has no extension |
| `Names.KeysAreDistinct` | fat32/fat32-helpers.c:216-230 | different valid names have different keys |
| `Names.CompareName` | fat32/fat32.c:263-284 | the comparison loop decides exactly the match of a printed form with a file name |
| `Names.MatchIsKeyEquality` | fat32/fat32.c:263-284 | for every legal stored key the comparison is equality of keys, both directions |
| `Names.ReadMatchIsKeyEquality` | fat32/fat32.c:351-357 | the string comparison of the reading path is key equality for dotted names and never succeeds for others |
| `Names.IntToFilename` | libpi/include/dfs-fat32-common.h:9-29 | the decimal digits in reverse followed by the extension, NUL-terminated, inside the 32 bytes for every 32-bit id |
| `Names.ChunkNameMeans` | libpi/include/dfs-fat32-common.h:9-29 | the name read backwards as a decimal number is the id, without superfluous zeros, followed by .TXT |
| `Names.ChunkNameValidIff` | libpi/include/dfs-fat32-common.h:9-29 | a chunk id gives a valid name exactly from 1 to 10^8 - 1 |
| `Names.ChunkKeysAreDistinct` | libpi/include/dfs-fat32-common.h:9-29 | different chunk ids in that range are stored under different keys |
| `Directory.EntryFields` | fat32/fat32-helpers.h:140-230 | start cluster, size, attributes and use of an entry, each from its bytes: the start cluster in bytes 26, 27, 20, 21, the size in 28 to 31 |
| `Directory.FindDirent` | fat32/fat32.c:230-291 | the scan returns the index of the first entry it accepts, or -1, also with keys such as "." and ".." |
| `Directory.LookupIsFirstByKey` | fat32/fat32.c:230-291 | looking up a valid name by printed form finds the first live entry whose 11 raw bytes are the key, and misses only if there is none |
| `Directory.LookupFindsKey` | fat32/fat32.c:230-291 | in a well-formed directory that is the only named entry with the key |
| `Directory.LookupsAgree` | fat32/fat32.c:230-291 | reading and writing a dotted name that exists use the same entry |
| `Directory.FindForRead` | fat32/fat32.c:345-361 | the search of the reading path: first named entry whose printed form is the name, else entry 0 |
| `Directory.FindSlot` | fat32/fat32.c:624-641 | the slot search finds the first entry that begins with 0 or 0xE5 and says whether it was the end of the directory |
| `Directory.PatchEntry` | fat32/fat32.c:576-592 | rewriting one 32-byte entry inside its cluster replaces that entry of the directory and no other |
| `DiskLayout.ClustersApart` | fat32/fat32.c:90-97 | sector ranges of different clusters are disjoint |
| `DiskLayout.WritingACluster` | fat32/fat32.c:90-97 | writing one cluster changes that cluster, no other cluster, and not the table region |
| `DiskLayout.WritingTheTable` | fat32/fat32.c:417-425 | writing n/128 sectors at the table's place replaces exactly the first copy of the table and no cluster |
| `DiskLayout.WordsOfBytes` | fat32/fat32.c:57 | reading flushed words back gives the same words |
| `Catalog.ChainsAreDisjoint` | fat32/fat32.c:429-536 | two different start clusters never share a cluster |
| `Catalog.RelinkKeepsLinks` | fat32/fat32.c:595-800 | every change of one entry from one chain to another keeps each chain referred to by exactly one entry |
| `Catalog.RechainKeepsPhysical` | fat32/fat32.c:429-536 | replacing one file's chain keeps every other chain, every directory's bytes and the absence of leaks |
| `Catalog.WriteReplacesFile` | fat32/fat32.c:429-536 | inside its useful domain the chain write replaces exactly one file of a consistent volume: its blocks in order, every other chain and directory kept, clusters conserved; it runs out exactly when it needs a cluster and none is free |
| `Catalog.DeleteOrphansNothingIff` | fat32/fat32.c:689-722 | a delete leaves no orphaned chain if and only if the entry is a file or a directory that refers to nothing |
| `Catalog.CreatedDirOkIff` | fat32/fat32.c:595-661 | a create keeps keys unique if and only if no named entry, hidden ones included, has the new key |
| `Catalog.DeleteFreesClusters` | fat32/fat32.c:707-717 | deleting gives back exactly as many free clusters as the chain had |
| `Catalog.MkdirTakesOneCluster` | fat32/fat32.c:643-659 | making a directory takes exactly one free cluster |
| `Catalog.AllocatedIsSumOfChains` | fat32/fat32.c:429-536 | the allocated clusters are exactly those of the chains, and their number is the sum of the chain lengths |
| `Volumes.Mount` | fat32/fat32.c:16-87 | mounting reads the geometry and the table words of the first copy; the object then agrees with the card |
| `Volumes.ClusterPlace` | fat32/fat32.c:37-42 | where cluster c lies on the card, by the fields of the boot sector |
| `Volumes.TableWordPlace` | fat32/fat32.c:57 | where word i of the table lies on the card, low byte first |
| `Volumes.Volume.RemountReadsSameTable` | fat32/fat32.c:57 | between operations a second mount would read the table that is in memory |
| `Volumes.Volume.ClusterToLba` | fat32/fat32.c:90-97 | the sector of a cluster; the 32-bit arithmetic does not wrap on a mounted card |
| `Volumes.Volume.ChainLength` | fat32/fat32.c:114-131 | the walk ends and counts the clusters of the chain, 0 for start cluster 0 |
| `Volumes.Volume.ReadChain` | fat32/fat32.c:136-157 | the buffer is the clusters of the chain end to end |
| `Volumes.Volume.GetDirents` | fat32/fat32.c:176-189 | the entries of a catalogued directory, all of them, in order |
| `Volumes.Volume.FindFree` | fat32/fat32.c:394-415 | the cluster returned has 0 in the low 28 bits of its entry and every one from 3 on that is skipped has not; a panic exactly when there is none |
| `Volumes.SearchLeavesCardIff` | fat32/fat32.c:394-411 | on a card with fewer clusters than the table has entries, the search returns a cluster behind the card if and only if some cluster is free and none of the free ones is on the card |
| `Volumes.Volume.FlushTable` | fat32/fat32.c:417-425 | after the flush the first copy on the card is the table in memory and no cluster changed |
| `Volumes.Volume.WriteClusterChain` | fat32/fat32.c:429-536 | table and cluster contents after the two loops are those of the value-level write, for every chain and size; a panic happens only with no cluster free |
| `Volumes.Volume.WriteDirent` | fat32/fat32.c:576-592 | exactly one entry of the directory changes, found by walking to its cluster |
| `Volumes.Volume.Create` | fat32/fat32.c:595-686 | invalid names and existing entries change nothing; otherwise the first unused slot holds the new entry, a new directory owns one zeroed cluster, every other chain keeps its bytes, the volume stays valid and synced; the two panics exactly where the code has them |
| `Volumes.Volume.Delete` | fat32/fat32.c:689-722 | found iff valid and present; the entry is unused, its chain free, the name gone, every other chain keeps its bytes, the card has the table; no chain is orphaned, and the volume is valid, if and only if the entry was a file or a directory that refers to nothing |
| `Volumes.Volume.Write` | fat32/fat32.c:754-800 | inside the domain: the entry has the new size and a chain that begins with the bytes, other entries, chains and contents are unchanged, clusters are conserved, volume valid and synced; panics iff one more cluster is needed and none is free |
| `Volumes.Volume.Read` | fat32/fat32.c:334-387 | the bytes along the chain of the entry the search picks, and its size, 0 for an empty chain |
| `FileApi.CreateFile` | fat32/fs-apis.c:147-166 | a new file is empty, an existing one is left alone; every other named entry of every directory keeps its 32 bytes, its clusters and their contents |
| `FileApi.WriteFile` | fat32/fs-apis.c:190-206 | afterwards the file holds exactly the given bytes; every other named entry of every directory keeps its 32 bytes, its clusters and their contents; clusters are conserved; panics iff it needs one and none is free |
| `FileApi.ReadFile` | fat32/fs-apis.c:177-188 | reading a dotted name returns exactly the bytes the file holds |
| `FileApi.Append` | fat32/fs-apis.c:208-234 | appending a string of at most a cluster leaves old bytes followed by the string and every other entry untouched; panics iff the new length needs more clusters than the file has and are free |
| `FileApi.AppendInDomain` | fat32/fs-apis.c:208-234 | an append of at most one cluster never needs more than one new cluster, so it stays where the chain write works |
| `FileApi.WriteKeepsOthers` | fat32/fat32.c:754-800 | a write to one file keeps every other named entry of the volume, whatever its name and attributes, and the contents it refers to |
| `FileApi.CreateKeepsOthers` | fat32/fat32.c:595-686 | a create keeps every existing named entry of the volume and the contents it refers to |
| `FileApi.OtherFileHolds` | fat32/fat32.c:754-800 | so every other file is still found by its name and holds the bytes it held |
| `Scheduler.StepKeeps` | preemptive-threads/preemptive-thread.c:190-450 | every step (fork, tick, request, put, drain, wait, printer run, exit, scheduler pass) keeps the scheduler invariant, while the tid counter does not wrap |
| `Scheduler.RunKeeps` | preemptive-threads/preemptive-thread.c:190-450 | the invariant holds in every state of every run from boot |
| `Scheduler.ForkKeepsIff` | preemptive-threads/preemptive-thread.c:39-50 | tids are 32-bit words: a fork keeps the invariant if and only if it does not use up the last one, after which the counter is 0 |
| `SchedulerRuns.TidZeroBreaksTheLock` | preemptive-threads/preemptive-thread.c:39-50 | that bound is needed: a run from boot exists after which two more forks give a thread tid 0, its grant leaves the lock word 0, and a second thread is let into the printing section |
| `Scheduler.MutualExclusion` | preemptive-threads/preemptive-thread.c:190-239 | in every state of every run at most one thread is between a granted REQUEST_STDOUT and its WAIT_STDOUT, the lock has its tid, and the wait slot is empty |
| `Scheduler.WaitSlotIsKept` | preemptive-threads/preemptive-thread.c:223-239 | while the wait slot is taken no thread can reach WAIT_STDOUT, and only a pass that finds the queue drained empties it |
| `Scheduler.SectionsAreContiguous` | preemptive-threads/thread-safe-io.c:31-46 | the characters of one printing section leave the UART in one piece, in every run |
| `Scheduler.EnteringStartsASection` | preemptive-threads/preemptive-thread.c:190-202 | in every run: a thread that gets in starts a section whose number is above those of all characters printed so far, and keeps it until it leaves |
| `Scheduler.OutputIsWhatWasPrinted` | preemptive-threads/preemptive-thread.c:102-120 | in every run: the characters sent, followed by those queued, are those printed so far, in order; a drain or a printer sends as many as it says |
| `SchedulerRuns.StepDoes` | preemptive-threads/preemptive-thread.c:190-343 | queues, current thread, wait slot, lock and output after each system call, tick, drain, printer run and exit |
| `SchedulerRuns.PassMeaning` | preemptive-threads/preemptive-thread.c:404-450 | a pass in closed form: the waiting thread is woken once all is sent, blocked threads follow if the lock is free, those in front that need a lock they cannot have are blocked in order, the first other one runs |
| `Scheduler.LockNamesARunnableThread` | preemptive-threads/thread-safe-io.c:14-29 | a lock that is taken names a live thread that is running or in the run queue |
| `Scheduler.PassDispatches` | preemptive-threads/preemptive-thread.c:404-450 | every scheduler pass with a live thread dispatches one |
| `Scheduler.ReadyThreadsRun` | preemptive-threads/preemptive-thread.c:429-450 | an unblocked thread at position i of the run queue is current at some point before i + 1 passes are over, in every run |
| `SchedulerRuns.PassGrantsIff` | preemptive-threads/preemptive-thread.c:404-450 | a pass lets a requester in if and only if the lock is free once the waiting thread is woken, and it is first in the run queue followed by the block queue |
| `SchedulerRuns.OnlyPassGrants` | preemptive-threads/preemptive-thread.c:190-343 | no other event lets a requester in or makes it stop asking |
| `SchedulerRuns.RequestersCanStarve` | preemptive-threads/preemptive-thread.c:404-450 | no fairness: for every n below the number of tids, a run in which one thread prints n + 1 sections while another asks for the lock all the time, because the woken thread goes ahead of the blocked ones |
| `Scheduler.EveryBlockIsPlacedOnce` | preemptive-threads/preemptive-thread.c:39-55 | in every state each thread block is in exactly one of run queue, block queue, free queue, current thread or wait slot, and tids are distinct and non-zero |
| `IntrusiveQueue.Queue.Pop` | libpi/libc/Q.h:27-40 | head, tail, cnt and next pointers spell out the sequence without its first element; null exactly when empty |
| `IntrusiveQueue.Queue.Append` | libpi/libc/Q.h:43-52 | the pointers spell out the sequence with the block at its end; only its next field and the old tail's change |
| `IntrusiveQueue.Queue.Push` | libpi/libc/Q.h:55-61 | the pointers spell out the sequence with the block in front |
| `IntrusiveQueue.QueueSet.Enqueue` | libpi/libc/Q.h:43-52 | an operation on one of the three queues leaves the other two well linked and all three without a common block |
| `IntrusiveQueue.QueueSet.Alloc` | preemptive-threads/preemptive-thread.c:39-50 | the block allocated is the front of the free queue or a new one, and is in no queue |
| `Kernels.Kernel.constructor` | preemptive-threads/preemptive-thread.c:27-33 | the scheduler starts valid: empty linked queues, free lock, first tid 1 |
| `Kernels.Kernel.Fork` | preemptive-threads/preemptive-thread.c:286-329 | block taken from the free queue or new, fresh tid, linked at the end of the run queue: the fork step; queues stay well linked and the invariant holds |
| `Kernels.Kernel.Tick` | preemptive-threads/preemptive-thread.c:274-277 | the current thread is linked at the end of the run queue; queues stay well linked and the invariant holds |
| `Kernels.Kernel.RequestStdout` | preemptive-threads/preemptive-thread.c:190-202 | granted with the lock, or linked at the end of the block queue: the request step; well linked, invariant kept |
| `Kernels.Kernel.WaitStdout` | preemptive-threads/preemptive-thread.c:223-239 | the wait step: lock released, or a printer forked that owns the lock and the caller put in the wait slot; well linked, invariant kept |
| `Kernels.Kernel.PutChar` | libpi/src/uart-interrupt.c:110-125 | refused exactly when 8191 characters are queued; otherwise the character goes to the end, tagged with the printing section of the current thread |
| `Kernels.Kernel.UartInterrupt` | libpi/src/uart-interrupt.c:161-175 | the interrupt sends as many characters as fit or are queued, oldest first, and takes them from the queue |
| `Kernels.Kernel.RunPrinter` | preemptive-threads/preemptive-thread.c:102-120 | the printer sends what the UART takes, oldest first, hands the lock on only if characters are left, and exits; well linked, invariant kept |
| `Kernels.Kernel.Exit` | preemptive-threads/preemptive-thread.c:335-343 | the current thread's block is linked at the front of the free queue; well linked, invariant kept |
| `Kernels.Kernel.UnblockStep` | preemptive-threads/preemptive-thread.c:418-427 | on linked queues, the loop moves exactly the blocked threads the step moves |
| `Kernels.Kernel.DispatchStep` | preemptive-threads/preemptive-thread.c:429-450 | on linked queues, the dispatch loop ends in the state of the recursive dispatch step |
| `Kernels.Kernel.SchedulerPass` | preemptive-threads/preemptive-thread.c:404-451 | one pass of the scheduler loop on the linked queues is the pass step; well linked, invariant kept |
| `Kernels.Kernel.InsideIsAlone` | preemptive-threads/preemptive-thread.c:190-239 | in every state of the class at most one block is in the printing section, the lock word is its tid, and the wait slot is empty |
| `Ring.StepKeeps` | libpi/libc/circular.h:74-114 | every memory access of push and pop, in any interleaving, keeps the ring invariant |
| `Ring.RingIsFifo` | libpi/libc/circular.h:65-114 | in every run: items popped followed by the ring's contents are the items pushed, at most 8191, and cq_nelem under 32-bit wrap-around is their number |
| `Ring.PushedIsOffered` | libpi/libc/circular.h:102-114 | in every run: the items pushed are those the pushes that found room began with, unchanged and in order |
| `Ring.RingIsLinearizable` | libpi/libc/circular.h:74-114 | every step is a step of an atomic queue: pushes take effect at the publish, pops at the tail update, failures exactly when full or empty |
| `Ring.SlotsAreSafe` | libpi/libc/circular.h:74-114 | no slot is overwritten before it was consumed or read before it was published |
| `Radio.CircularQueue.Push` | libpi/libc/circular.h:102-114 | refused exactly when 8191 bytes are queued, else the byte is last |
| `Radio.CircularQueue.PopNonblock` | libpi/libc/circular.h:74-86 | refused exactly when empty, else the oldest byte |
| `Radio.CircularQueue.PushN` | libpi/libc/circular.h:161-175 | all bytes or none, decided by the space; the panic inside is unreachable |
| `Radio.CircularQueue.Count` | libpi/libc/circular.h:70 | the wrapped index difference is the number of bytes queued |
| `Radio.Nic.TakePacket` | libpi/libc/circular.h:161-175 | the packet's own bytes are queued if there is room for all of them, else none |
| `Radio.Nic.HandleInterrupt` | network/nrf-interrupt.c:71-88 | the receive loop queues the longest prefix of the hardware FIFO that fits, byte for byte; the other packets leave no trace |
| `Radio.Nic.Interrupt` | network/nrf-interrupt.c:71-88 | between reads the queue is a concatenation of whole packets in arrival order, before and after an interrupt, which adds the longest prefix of the FIFO that fits |
| `Radio.Nic.Disturb` | network/nrf-interrupt.c:71-88 | an interrupt in the middle of a packet leaves the rest of it in front of the queue and whole packets behind |
| `Radio.Nic.ReadExact` | network/nrf-public.c:16-29 | with any packets arriving before the test and before each of the four memory accesses of every byte pop, a read returns the oldest packet queued, or else the first one the first interrupt finds, undamaged; nothing exactly when there is neither; every packet accepted meanwhile is one that arrived |
| `Heartbeat.StepKeeps` | dfs/dfs-master.c:79-106 | sweeps, replies, lost, late, duplicated and reordered packets keep the protocol invariant |
| `Heartbeat.LagNeverWraps` | dfs/dfs-master.c:86 | a recorded id never exceeds the master's, so the unsigned lag is the true one, in every run |
| `Heartbeat.SweepDecides` | dfs/dfs-master.c:82-100 | after a sweep step a server is CHUNK_OK exactly when its lag is at most 3, and no other server changed |
| `Heartbeat.UpMeansAnswered` | dfs/dfs-master.c:82-106 | a server found up answered, with its own address, one of the last three heartbeats sent to it, or at most three rounds have passed |
| `Heartbeat.RecordIsLastReply` | dfs/dfs-master.c:234-262 | in every run: what is recorded of a server is the id of the last reply heard from it with its address |
| `Heartbeat.UpIffAnswered` | dfs/dfs-master.c:82-106 | in every run: a sweep step finds a server up if and only if its last reply heard is at most three rounds old |
| `Heartbeat.AnswerIsHeard` | dfs/dfs-chunkserver.c:137-158 | a heartbeat that reaches its station comes back as a reply with the same id, which is recorded for that station |
| `Heartbeat.ActiveCount` | dfs/dfs-master.c:86-99 | num_act_server is the number of servers up less the late steps, modulo 2^32, in every run; equal to it iff there were none |
| `Heartbeat.SweepCountsRightIff` | dfs/dfs-master.c:86-99 | a sweep step keeps the count right if and only if it does not meet a server that is down and still lags |
| `Heartbeat.SilentServerDrifts` | dfs/dfs-master.c:79-106 | with one server that never answers the count is 2^32 + 4 - r after r > 4 rounds, though no server is up |
| `Heartbeat.Master.SweepStep` | dfs/dfs-master.c:82-106 | status and count after one sweep step, by the unsigned lag, and the heartbeat it sends |
| `Heartbeat.Master.Round` | dfs/dfs-master.c:79-106 | after an undisturbed round every server in use is up exactly when its lag is at most 3 and was sent the new id |
| `Heartbeat.Master.HandleReply` | dfs/dfs-master.c:234-262 | a reply is recorded, for the server it names and no other, exactly when its address is the one configured |
| `Fragmentation.SendLoop` | dfs/dfs-client.c:290-316 | the send loop produces the sixteen-byte fragments with their offsets, the last one marked, zero padded |
| `Fragmentation.EndPacketIsLast` | dfs/dfs-chunkserver.c:182-203 | exactly one packet of a transfer carries the end mark, it is the last, and offsets advance by sixteen modulo 2^32 |
| `Fragmentation.JoinUndoesFragment` | dfs/dfs-client.c:396-422 | joining the data fields gives the bytes back, with zeros up to the end of the last packet |
| `Fragmentation.FragmentsAreAWrite` | dfs/dfs-client.c:290-316 | as NUL-terminated strings the packets of a NUL-free write are its consecutive pieces |
| `Fragmentation.ReceiveLoop` | dfs/dfs-client.c:396-422 | the receive loop fills the buffer with the joined data fields and touches nothing behind them |
| `ChunkServer.HandleWrite` | dfs/dfs-chunkserver.c:219-241 | a packet with offset 0 creates a missing chunk and keeps an existing one; the string in the packet is appended; only an end packet is acknowledged; every other entry of the volume and its contents stay; panics iff the clusters do not suffice |
| `ChunkServer.WriteChunk` | dfs/dfs-client.c:290-316 | a whole write over an in-order lossless link appends exactly its bytes and is acknowledged exactly once |
| `ChunkServer.WriteAll` | dfs/dfs-chunkserver.c:219-241 | any non-empty list of writes leaves their concatenation, one acknowledgement each |
| `ChunkServer.HandleRead` | dfs/dfs-chunkserver.c:159-215 | for every port, offset and length: nothing for a bad port, endless sending, or the fragments of memory from the offset on that the code sends |
| `ChunkServer.AnswerStaysInsideIff` | dfs/dfs-chunkserver.c:177-184 | only bytes of the chunk are sent if and only if none are asked for, or the offset is inside the chunk and the end of the query does not wrap |
| `ChunkServer.OffsetBehindTheChunk` | dfs/dfs-chunkserver.c:179-180 | offset 1 of a one-byte chunk is not refused: the byte behind the chunk is sent |
| `ChunkServer.LengthThatWraps` | dfs/dfs-chunkserver.c:181-184 | offset 1 and length 2^32 - 1 pass the clamp, and the sending never ends |
| `ChunkServer.SendingNeverEndsIff` | dfs/dfs-chunkserver.c:186-214 | the 32-bit counter of the send loop never reaches the length if and only if that exceeds 2^32 - 16 |
| `ChunkServer.AnswerInside` | dfs/dfs-chunkserver.c:177-215 | the answer to a query inside the chunk is the fragments of exactly the bytes asked for, clamped to the chunk, whatever memory lies behind |
| `ChunkServer.FetchChunk` | dfs/dfs-client.c:380-424 | the client's buffer begins with exactly the bytes of the chunk; for an empty chunk it gets 1024 bytes of the memory behind the chunk's buffer |
| `ChunkServer.StoreAndFetch` | dfs/dfs-chunkserver.c:159-241 | end to end over the FAT32 volume: any non-empty NUL-free writes of at most 1024 bytes in all to a fresh chunk, then a query, give the client exactly their concatenation; every other entry of the volume and its contents stay; panics iff the concatenation needs more clusters than are free |
| `Random.TableStep` | libpi/libc/random.c:160-178 | adding the rear word into the front word and moving on is one step of y[n+deg] = y[n] + y[n+deg-sep] mod 2^32 on the table read from the front |
| `Random.OutputsFollowTheRecurrence` | libpi/libc/random.c:140-185 | for every trinomial and every number of calls the values drawn are one series satisfying the recurrence, without the lowest bit |
| `Random.Recurrences` | libpi/libc/random.c:80-106 | with numbers: degree and distance are 7 and 3, 15 and 1, 31 and 3, 63 and 1 |
| `Random.RandomData.Random` | libpi/libc/random.c:140-185 | one call advances the generator by one step; kind 0 returns 1103515245 times its word plus 12345 modulo 2^31, the others half the sum of front and rear word modulo 2^32 |
| `Random.RandomData.MoveOn` | libpi/libc/random.c:167-178 | front and rear stay sep apart inside the table although the rear index is not tested when the front wraps |
| `Random.RandomData.Draw` | libpi/libc/random.c:140-185 | any number of calls return the outputs of the stepped generator in order |
| `Random.LehmerIsExact` | libpi/libc/random.c:223-229 | the hi/lo split computes 16807 * word mod 2147483647 for every 32-bit word, and no intermediate leaves the signed 32-bit range |
| `Random.RandomData.Fill` | libpi/libc/random.c:216-231 | the seeding loop fills the table with the powers of 16807 times the seed, modulo 2147483647 |
| `Random.FilledFollows` | libpi/libc/random.c:216-231 | each word of the seeded table is 16807 times the one before, as a signed word, modulo 2147483647 |
| `Random.SeedRange` | libpi/libc/random.c:206-231 | all filled words lie strictly between 0 and 2147483647 if and only if the seed is neither 2147483647 nor 2147483649 |
| `Random.RandomData.SRandom` | libpi/libc/random.c:195-247 | seeding gives the filled table with the indices sep apart, advanced by ten times the degree; seed 0 counts as 1 |
| `Random.RandomData.InitState` | libpi/libc/random.c:260-305 | the kind follows from the size, fewer than 8 bytes are refused, the array describes the current generator, and the old array is not written |
| `Random.RandomData.LeftByInitState` | libpi/libc/random.c:249-305 | the old generator is not saved: after n draws, `initstate` elsewhere and `setstate` back, the table is read turned back by n mod deg places; the stream goes on if and only if the generator has one word of state, or the words after n draws repeat at that distance |
| `Random.StaleInfo` | libpi/libc/random.c:315-356 | what an array describes whose info word is n draws old, and exactly when that is the generator it was left with |
| `Random.StreamIsLost` | libpi/libc/random.c:249-305 | every table of kind 1 at rear index 0 whose first and last words differ is without that repetition after one draw, so its stream is lost |
| `Random.ComesBackIff` | libpi/libc/random.c:167-178 | the rear index comes around after n draws if and only if the degree divides n |
| `Random.RandomData.SetState` | libpi/libc/random.c:315-356 | the old array then describes the old generator, with 5 times the rear index plus the kind in front, the new generator is the one its array describes, and a negative kind is refused after saving |
| `Random.RandomData.Excursion` | libpi/libc/random.c:315-356 | switching away, drawing any number of values and switching back continues the stream as if never interrupted |
| `Crc.TableIsEightSteps` | libpi/libc/crc.c:8-52 | all 256 table entries are what eight bit-serial steps make of their index |
| `Crc.LoopBody` | libpi/libc/crc.c:58-59 | one pass of the loop does what feeding the eight bits of the byte does |
| `Crc.Crc32Inc` | libpi/libc/crc.c:54-61 | the table-driven loop computes the bit-serial reflected CRC-32 of section 8 of RFC 1952 for every buffer and starting CRC |
| `Crc.CrcOfConcat` | libpi/libc/crc.c:54-65 | continuing from the CRC of a first buffer gives the CRC of the concatenation |
| `Crc.CheckValue` | libpi/libc/crc.c:54-65 | the CRC of the letter a is 0xE8B7BE43 |
| `Crc.CrcOfNothing` | libpi/libc/crc.c:54-61 | an empty buffer leaves the CRC as it is |
| `ShiftRegister.SerialIsSteps` | libpi/libc/crc.c:54-61 | for any linear shift register, feeding n bits one by one equals n steps with all of them added at once |
| `PrintScan.ValueOfNumeral` | libpi/src/scank.c:43-77 | accumulating the digits of the numeral of any 32-bit word, in 32 bits, gives the word back in bases 2, 10 and 16 |
| `PrintScan.Printer.BufferDigits` | libpi/libc/printk.c:5-26 | at most 32 places of the 33-byte buffer are used, holding the digits least significant first |
| `PrintScan.Printer.EmitVal` | libpi/libc/printk.c:5-33 | the characters emitted are the numeral, most significant digit first, without leading zeros |
| `PrintScan.Printer.VPrintk` | libpi/libc/printk.c:37-101 | the text printed for a format of number conversions and literals, the most negative integer included |
| `PrintScan.UnsignedShown` | libpi/libc/printk.c:50-51 | %u prints the decimal and %b the binary digits of the word, by place value, without leading zeros |
| `PrintScan.HexShown` | libpi/libc/printk.c:75-81 | %x and %p print 0x and the hexadecimal digits |
| `PrintScan.SignedShown` | libpi/libc/printk.c:82-90 | %d prints the two's complement value in decimal |
| `PrintScan.ShowsParts` | libpi/libc/printk.c:37-50 | a literal prints as itself, a conversion as its argument, in the order of the format |
| `PrintScan.Scanner.Match` | libpi/src/scank.c:31-41 | a matching character is consumed, another one stays as lookahead |
| `PrintScan.Scanner.SkipTo` | libpi/src/scank.c:118-125 | the loops for the leading 0x return exactly when the next character matches or ends the line; otherwise they hang |
| `PrintScan.Scanner.AbsorbVal` | libpi/src/scank.c:43-77 | the value of the digits up to the first other character, which becomes the lookahead |
| `PrintScan.Scanner.VScank` | libpi/src/scank.c:81-164 | scanning undoes printing: on the text printed for the same format, ended by a newline, every 32-bit argument is recovered |

## Left out

- SD card, SPI, GPIO, UART, mailbox and MMU code, exception vectors and the context switch: register input and output; the card is a byte sequence, the radio a set of packets, a context switch an atomic change of the current thread.
- `fat32_rename`, `fat32_stat`, `fat32_readdir`, `fat32_dir_lookup`: they would only add members that repeat the look-up and the entry rewrite.
- `fat32_truncate`: it deletes, creates and writes from an empty chain, so it leaves the useful domain of the chain write as soon as more than one cluster is needed.
- The read-back check at the end of `fat32_write`, the second copy of the table, timestamps and consistency after a crash between sector writes: not maintained by the code or of no effect on the result.
- Directories with "." and ".." entries as other systems write them: the whole-volume invariant asks for legal 8.3 keys, and this driver creates directories without such entries; the searches themselves are modelled for them.
- Directory.FindDirent: for named entries whose base is not all spaces and whose key has no NUL; what is printed for the former is `Names.FormatName`.
- Directory.FindForRead: for the same entries.
- Volumes.Mount: for a consistent card that has all clusters its table can name; the code compares the two nowhere, and where the search then leaves the card is `SearchLeavesCardIff`.
- Volumes.Volume.Create: for a directory that has an unused slot, and a name no hidden entry has; with no unused slot the code writes behind the directory's buffer.
- Volumes.Volume.Write: for a file entry, and a number of clusters that is zero, the old one or one more; what the chain write does outside is in `ChainStore`.
- Volumes.Volume.Read: for a name the search finds, or a directory whose entry 0 is named; files below 4 GB.
- FileApi.CreateFile: directory names and the current directory of a mirror are resolved by the caller.
- FileApi.WriteFile: for a file with no more clusters than its size needs, and the sizes of `Volumes.Volume.Write`.
- FileApi.Append: for a string of at most a cluster and a file without NUL, beyond which the code writes less or leaves the domain of the chain write.
- ChunkServer.HandleWrite: for ids whose names are valid (`Names.ChunkNameValidIff`), and a missing chunk only with offset 0; otherwise the write behind the append finds no file.
- ChunkServer.FetchChunk: for a chunk that exists.
- ChunkServer.HandleRead: for a chunk that exists; what the look-up reads for a missing one is `Directory.FindForRead`.
- ChunkServer.StoreAndFetch: the chunk id and the server are given; the master's choice of them is not modelled, because its replies do not carry the stored id.
- Lost packets during a chunk transfer, retries and time-outs of the client: the code gives up without a promise.
- REQUEST_STDIN and END_STDIN: the stdin wait slot is not reached by the system call wrapper, and END_STDIN writes through the stdout wait slot.
- Scheduler.StepKeeps: while fewer than 2^32 - 1 threads have been forked (`ForkKeepsIff`); threads follow the request and wait protocol and exit outside of it; `pre_fork` is atomic. The block and the tid that `pre_thread_start` takes for the scheduler's own context are not modelled: no queue ever holds that block, and the tid is skipped.
- Kernels.Kernel.PutChar: the character queue of this class is a sequence of at most 8191 characters; that the ring implements it is `Ring`.
- Radio.Nic.ReadExact: reads of the configured packet size; `cq_peek_n` is left out because it is only sound without a concurrent producer.
- Heartbeat.StepKeeps: fewer than 2^32 rounds; `usage` and `storage` are copied fields without a promise.
- Heartbeat.Master.HandleReply: for a server number inside the table; the code indexes its 64 entries with an 8-bit number that it does not check.
- Random.RandomData.SetState: for an array whose info word has a rear index inside its table, or a negative kind; the code does not check the index.
- PrintScan.Printer.VPrintk: `%c`, `%s` and `%llx` are left out, they would only add easy members.
- Cooperative threads, router registration, shell parsing, long file name printing, string and hashing helpers, host tools: user interface or easy claims.
