# Verified models of the audio engine

A Dafny 4.11 model, with proofs, of the parts of the audio engine that manage memory and voices. The
source is recompiled MIPS: registers and emulated memory. The model lifts it to records, arrays and
loops, keeps its branches, constants and order of effects, and states what the code is for.

Each part comes in two layers. A class holds the fields the source updates and its methods work in
place; their contracts equate the new state with a function of the old one. The properties are proved
about those functions, over whole runs where they are protocols.

| part | files | main results |
|---|---|---|
| sample-DMA cache | SampleDmaModel, SampleDmaProofs, SampleDmaServe, SampleDmaRuns, SampleDmaAnswers, SampleDma, AudioPool, AudioBase | queues list exactly the idle buffers; `RepliesAreRom`; what each hit and miss answers; the capacity bound 2k is enough and sharp |
| sequence and font caches | SoundCacheModel, SoundCacheProofs, SoundCacheRuns, SoundCacheRecency, SoundCacheArrivals, SoundCacheFailures, SoundCacheTruth, SoundCacheAnswers, SequenceBytes, SoundCaches | regions never overlap in any run; the status table is truthful over a run if and only if no lost file arrives (`TruthfulIff`); complete sequences hold their ROM bytes; victim policy over the heap before the call; a lookup finds what the load returned (`LoadThenFind`); two-way LRU |
| note lists | NoteListModel, NotePools, NoteFrames, NoteCounts, NoteLists | every note on exactly one circular list; exact fill; one pass, shutdowns included, files each note (`PassFilesEachNote`) |
| font relocation | FontModel, FontMeaning, FontPatch | every shared object rebased once; each slot still leads to the same sound |
| audio reset | ResetModel, AudioReset | 29 steps, one heap rebuild, buffers silent and notes released at the right steps, gains at most 210 |
| chunked transfers | ChunkModel, ChunkedDma | the chunks tile the file, in exactly ceil(n / 0x1000) requests |
| PCM ring | RingModel, RingProofs, RingCopy | a queue over all runs if and only if the capacity divides 2^64, from any position or from 0 |
| echo zones | ZoneModel, ReverbZone | the original gain is back exactly when the last player leaves; exactly when that fails |

## Where the code falls short of what one would expect

Each of these is stated by a lemma with the exact condition or a concrete run, or by a contract.

- Queue 1 is popped without an emptiness test. `InvKeptIffNoUnderflow` says when that is harmless,
  `PacedNeverUnderflows` what pace guarantees it, `CapacityIsSharp` and `PaceIsExact` that no weaker one does.
- A buffer that was never filled has source 0 and answers requests near ROM address 0 with zeros
  (`LowAddressMisread`); requests ending beyond 0x400 are safe.
- An asynchronous load can arrive without an entry, and then marks an id complete that nobody holds
  (`StepKeepsGood`). That happens when a new region is laid over its entry (`TwoLoadsIff`,
  `EvictedThenArrives`), and also with nothing overlapping when a file is asked for again before it
  arrives (`DuplicateLoadOrphaned`). It never happens otherwise (`StepWaiting`, `RunKeepsGood`,
  and over whole runs, in both directions, `TruthfulIff`); `ModestRunsStayGood` gives a rule to follow.
- The rest of an evicted load is still transferred, into the entry that has replaced it by then
  (`LateLandingOverwrites`, with the exact condition on the two files). Under the rule just named it never
  is, and complete entries hold their file (`CompleteEntriesAreRom`).
- The two-sided cache indexes the status table with -1 exactly when a file is larger than the region (on
  the upper side: than the region less 16 bytes) (`OverlapOfEmptySide`).
- Removing a note does not lower the list's count, so counts only bound lengths from above
  (`CountRunsAhead`); they are exact if and only if nothing was removed (`CountIsExactIff`).
- Clearing the free pool itself would never end (`ClearingFreePoolSpins`).
- The ring's positions are meant to grow without end; at the 64-bit wrap a ring whose size does not
  divide 2^64 loses its place, and the device ring has 192000 cells (`DeviceRingIsNotFifoForever`; from
  the initial state, `FreshFifoIffDividesWrap`).
- Outside two-player mode the first player to leave an echo zone ends it for everyone
  (`SharedCallIff`), and a mode change while someone is inside can leave the gain wrong
  (`ChangeWhileInsideFails`, `ChangeWhileBothInsideFails`).
- The initialiser's last loop clears queue 2 from slot n, not from slot n - n1; the slots in between
  keep old contents, which the queue invariant shows to be harmless (`FillQueue2`, `FreshTableInv`).

Three remarks. The space set aside for a font leaves out the file's 16-byte header, which is never copied
into it, so a file one byte longer than a number of blocks is longer than its space, but what is copied
fits (`LoadSizeCovers`). The initialiser of the note lists runs before the other pools exist; `BootNotes` follows
that order. A second relocation of a font would move its table slots again, since only the objects
behind them carry a loaded flag (`SecondPatchKeepsSlotIff`); the program relocates only after a fresh
load.

## Model

| member | source | states |
|---|---|---|
| `SampleDma.SampleDmaCache.DmaSampleData` | RecompiledFuncsPoint0/funcs_11.c:4195-4684 | a request, hit or miss, in place: state, returned address and buffer reference are those of the specification `ServeRequest` |
| `SampleDma.SampleDmaCache.DecreaseSampleDmaTtls` | RecompiledFuncsPoint0/funcs_11.c:4015-4194 | one tick over both classes in place: the new state is `TickState` |
| `SampleDma.SampleDmaCache.AgeShort` | RecompiledFuncsPoint0/funcs_11.c:4015-4097 | the short-buffer loop of a tick: ages its class and re-enqueues the expired, touching nothing of the other class |
| `SampleDma.SampleDmaCache.AgeLong` | RecompiledFuncsPoint0/funcs_11.c:4098-4194 | the same loop over the long buffers and queue 2 |
| `SampleDma.SampleDmaCache.FillBuffer` | RecompiledFuncsPoint0/funcs_11.c:4592-4684 | the chosen buffer is leased for 2 ticks, records the 16-byte aligned source, the transfer fills it, and the answer points into it |
| `SampleDma.SampleDmaCache.UseLong` | RecompiledFuncsPoint0/funcs_11.c:4299-4388 | a long hit: leave queue 2 if idle, lease for 60 ticks, answer |
| `SampleDma.SampleDmaCache.UseShort` | RecompiledFuncsPoint0/funcs_11.c:4492-4560 | a short hit: leave queue 1 if idle, lease for 2 ticks, answer |
| `SampleDma.SampleDmaCache.LeaveQueue1` | RecompiledFuncsPoint0/funcs_11.c:4492-4547 | swap-with-tail removal from queue 1 |
| `SampleDma.SampleDmaCache.LeaveQueue2` | RecompiledFuncsPoint0/funcs_11.c:4299-4364 | swap-with-tail removal from queue 2 |
| `SampleDma.SampleDmaCache.SearchLong` | RecompiledFuncsPoint0/funcs_11.c:4240-4298 | the linear search stops at the first long buffer that covers the request, or at n |
| `SampleDma.SampleDmaCache.InitSampleDmaBuffers` | RecompiledFuncsPoint0/funcs_11.c:4685-5134 | from an empty table, however early memory runs out in either loop: both queues exact, classes split at n1, all leases expired, memory accounted for to the byte |
| `SampleDma.SampleDmaCache.FillQueue1` | RecompiledFuncsPoint0/funcs_11.c:4840-4936 | queue 1 lists the short buffers in order and the other slots are cleared |
| `SampleDma.SampleDmaCache.FillQueue2` | RecompiledFuncsPoint0/funcs_11.c:5017-5110 | queue 2 lists the long buffers offset by n1; the clearing loop starts at slot n |
| `SampleDmaProofs.ListedExact` | RecompiledFuncsPoint0/funcs_11.c:4015-4684 | under the queue invariant the first m window slots name m different buffers, exactly the idle ones that close to the tail |
| `SampleDmaProofs.CountIsIdle` | RecompiledFuncsPoint0/funcs_11.c:4015-4684 | the length of a queue is the number of zero-TTL buffers of its class |
| `SampleDmaProofs.PushKeeps` | RecompiledFuncsPoint0/funcs_11.c:4064-4078 | re-enqueueing an expired buffer keeps the queue exact across byte wrap-around |
| `SampleDmaProofs.UnlinkKeeps` | RecompiledFuncsPoint0/funcs_11.c:4313-4364 | swap-with-tail removal keeps the queue exact |
| `SampleDmaProofs.PopKeeps` | RecompiledFuncsPoint0/funcs_11.c:4569-4610 | popping a nonempty queue and leasing the buffer keeps the queue exact |
| `SampleDmaProofs.PopEmptyBreaks` | RecompiledFuncsPoint0/funcs_11.c:4561-4591 | the unchecked pop of an empty queue destroys exactness |
| `SampleDmaProofs.AgeClassExact` | RecompiledFuncsPoint0/funcs_11.c:4015-4097 | ageing a class lowers each nonzero TTL by one, touches nothing else but slots, and lists exactly the newly expired |
| `SampleDmaProofs.TickKeepsInv` | RecompiledFuncsPoint0/funcs_11.c:4015-4194 | a tick keeps queues, layout, ROM coherence and lease bounds |
| `SampleDmaProofs.FreshTableInv` | RecompiledFuncsPoint0/funcs_11.c:4685-5134 | a freshly built table satisfies the whole invariant for any split |
| `SampleDmaServe.HitsExact` | RecompiledFuncsPoint0/funcs_11.c:4265-4292 | the compiled 32-bit hit test is containment, or a request larger than the buffer |
| `SampleDmaServe.ServeKeepsInv` | RecompiledFuncsPoint0/funcs_11.c:4195-4684 | a request keeps the whole invariant and leases exactly one buffer, idle unless it was a hit |
| `SampleDmaServe.InvKeptIffNoUnderflow` | RecompiledFuncsPoint0/funcs_11.c:4561-4591 | a request keeps the invariant if and only if it does not pop queue 1 empty |
| `SampleDmaServe.ServedBytes` | RecompiledFuncsPoint0/funcs_11.c:4368-4388 | the reply lies inside the named buffer, and its bytes are the ROM's if and only if it did not hit a never-filled buffer (or the ROM reads zero there) |
| `SampleDmaAnswers.FoundIsHolder` | RecompiledFuncsPoint0/funcs_11.c:4240-4298 | a request is a hit exactly when the short buffer it names covers it or, if it wants a long buffer or names no short one, some long buffer does, and then the first such |
| `SampleDmaAnswers.HitExact` | RecompiledFuncsPoint0/funcs_11.c:4299-4560 | a hit moves no byte, answers the address's place in that buffer and leases it for 60 or 2 ticks; no other buffer changes |
| `SampleDmaAnswers.MissExact` | RecompiledFuncsPoint0/funcs_11.c:4561-4684 | a miss takes the idle buffer at its queue's tail, long exactly if wanted and idle; the buffer then holds the 16-byte aligned ROM block around the address, the answer is its pointer plus the address modulo 16, and no other byte changes |
| `SampleDmaAnswers.SourcesStayAligned` | RecompiledFuncsPoint0/funcs_11.c:4592-4670 | every buffer's source is a multiple of 16 throughout every run, underflows included |
| `SampleDmaRuns.RunKeepsInv` | RecompiledFuncsPoint0/funcs_11.c:4015-4684 | the invariant over every run of ticks and requests without underflow |
| `SampleDmaRuns.LeaseHolds` | RecompiledFuncsPoint0/funcs_11.c:4368-4372 | a buffer with t ticks of lease keeps source and bytes through any run of fewer than t ticks |
| `SampleDmaRuns.PacedNeverUnderflows` | RecompiledFuncsPoint0/funcs_11.c:4561-4591 | at most k requests between ticks and n1 >= 2k: queue 1 is never popped empty |
| `SampleDmaRuns.CapacityIsSharp` | RecompiledFuncsPoint0/funcs_11.c:4561-4591 | with fewer than 2k short buffers and any number of long ones, k requests no buffer covers, a tick and k more do underflow |
| `SampleDmaRuns.PaceIsExact` | RecompiledFuncsPoint0/funcs_11.c:4561-4591 | from a freshly built cache every run at pace k is safe if and only if n1 >= 2k |
| `SampleDmaRuns.TickAges` | RecompiledFuncsPoint0/funcs_11.c:4015-4097 | a tick turns the buffers leased in this epoch into those of the previous one and frees the older |
| `SampleDmaRuns.ServeLeasesOne` | RecompiledFuncsPoint0/funcs_11.c:4548-4560 | a request adds at most one short lease |
| `SampleDmaRuns.BurstDrains` | RecompiledFuncsPoint0/funcs_11.c:4561-4591 | misses that must pop queue 1 drain it one by one; the run is safe exactly up to its length |
| `SampleDmaRuns.RepliesAreRom` | RecompiledFuncsPoint0/funcs_11.c:4195-4684 | over any paced run, every reply points at the ROM bytes asked for, and they stay there until its lease (2 or 60 ticks) runs out |
| `SampleDmaRuns.LowAddressMisread` | RecompiledFuncsPoint0/funcs_11.c:4462-4487 | a never-filled buffer (source 0) answers a request near ROM address 0 with its zeros, so the address bound is needed |
| `AudioPool.Pool.AllocZeroed` | RecompiledFuncsPoint0/funcs_10.c:33061-33146 | bump allocation rounded to 16 bytes: null exactly when it does not fit, else a zeroed region and nothing else written |
| `SoundCaches.SoundHeap.AllocCached` | RecompiledFuncsPoint0/funcs_11.c:518-1681 | allocation in place, with fallback from the persistent pool: new heap and address are those of the specification |
| `SoundCaches.SoundHeap.AllocTemporary` | RecompiledFuncsPoint0/funcs_11.c:543-1549 | the temporary part in place: settle statuses, choose a side, evict, place |
| `SoundCaches.SoundHeap.ChooseVictim` | RecompiledFuncsPoint0/funcs_11.c:772-1210 | the branch cascade over statuses, use and nextSide, or -1 when no side can go |
| `SoundCaches.SoundHeap.Search` | RecompiledFuncsPoint0/funcs_11.c:1682-1825 | lookup in place: persistent entries first, temporary ones touch nextSide |
| `SoundCacheAnswers.SearchExact` | RecompiledFuncsPoint0/funcs_11.c:1682-1825 | the answer is the first persistent row of the file unless only the temporary region is asked for, else its temporary entry (entry 0 first) unless only rows are, else null |
| `SoundCacheAnswers.SearchTouches` | RecompiledFuncsPoint0/funcs_11.c:1682-1825 | a lookup changes at most nextSide, to the side it did not find |
| `SoundCacheAnswers.LoadThenFind` | RecompiledFuncsPoint0/funcs_11.c:1682-1825 | over every run, what a load of a new file returned is what a lookup finds: for good if persistent, exactly while its entry stands if temporary |
| `SoundCaches.SoundHeap.Load` | RecompiledFuncsPoint0/funcs_11.c:5548-6243 | the common shape of the four loaders: allocate, transfer, publish the status |
| `SoundCacheAnswers.LoadSizeCovers` | RecompiledFuncsPoint0/funcs_11.c:5570-5582 | the space set aside holds the sequence, and of a font all but its 16-byte header; it holds the whole font file if and only if the length is not 1 modulo 16 |
| `SoundCacheAnswers.LoadStatus` | RecompiledFuncsPoint0/funcs_11.c:5548-6243 | a successful load publishes loading or complete for its own id and nothing else |
| `SoundCacheAnswers.ArriveExact` | RecompiledFuncsPoint0/funcs_12.c:10155-10310 | an arrival completes its file and changes nothing else |
| `SoundCaches.SoundHeap.StopPlayer` | RecompiledFuncsPoint0/funcs_12.c:4451-4595 | stopping a player makes its sequence discardable and its font pending |
| `SoundCacheAnswers.StopExact` | RecompiledFuncsPoint0/funcs_12.c:4451-4595 | the player is disabled, its sequence discardable and its font pending as far as they were loaded, and nobody else's |
| `SoundCaches.SoundHeap.DiscardSequence` | RecompiledFuncsPoint0/funcs_10.c:32975-33060 | stops every player of an evicted sequence |
| `SoundCacheAnswers.DiscardExact` | RecompiledFuncsPoint0/funcs_10.c:32975-33060 | exactly the enabled players of the sequence are stopped, with exactly the status changes stopping them means |
| `SoundCaches.SoundHeap.SettleFont` | RecompiledFuncsPoint0/funcs_11.c:651-771 | a pending font without sounding notes becomes discardable |
| `SoundCaches.SoundCache.TakeSide` | RecompiledFuncsPoint0/funcs_11.c:1308-1549 | placing an entry on a side and dropping the opposite one on overlap |
| `SoundCacheProofs.OverlapOfEmptySide` | RecompiledFuncsPoint0/funcs_11.c:1324-1350 | overlap with an empty side (a status index of -1) happens if and only if the file does not fit the pool |
| `SoundCacheProofs.OverlapIsMeeting` | RecompiledFuncsPoint0/funcs_11.c:1324-1340 | the opposite entry, loading or not, is thrown out if and only if the regions really meet |
| `SoundCacheProofs.OccupyLayout` | RecompiledFuncsPoint0/funcs_11.c:1308-1549 | taking a side keeps the layout, whatever the statuses, and touches the other entry only when the regions meet |
| `SoundCacheProofs.OccupyStatus` | RecompiledFuncsPoint0/funcs_11.c:1214-1260 | exactly the statuses of the evicted ids are cleared |
| `SoundCacheProofs.OccupyAgrees` | RecompiledFuncsPoint0/funcs_11.c:1308-1549 | taking a side keeps statuses and entries agreed |
| `SoundCacheProofs.DiscardedThenDropped` | RecompiledFuncsPoint0/funcs_11.c:1337-1420 | the order of eviction and rewriting the entries does not matter |
| `SoundCacheRuns.PickIsLeastRank` | RecompiledFuncsPoint0/funcs_11.c:772-1210 | the cascade is a minimum over five ranks (unloaded, discardable, idle, in use, loading), discardable ties by nextSide |
| `SoundCacheRuns.TemporaryOutcome` | RecompiledFuncsPoint0/funcs_11.c:543-1549 | allocation fails, changing nothing, exactly when both sides are loading; otherwise a side not loading is taken |
| `SoundCacheAnswers.TakesLeastReluctant` | RecompiledFuncsPoint0/funcs_11.c:651-1210 | a temporary load takes the side given up most willingly in the heap before the call, a pending font without sounding notes counting as discardable |
| `SoundCacheAnswers.TemporaryStatus` | RecompiledFuncsPoint0/funcs_11.c:651-1549 | every status after a temporary load: exactly the replaced ids are unloaded, exactly the faded fonts on either side become discardable unless replaced |
| `SoundCacheAnswers.TemporaryStops` | RecompiledFuncsPoint0/funcs_11.c:1308-1549 | exactly the players of the sequence a load ran into are stopped and their fonts pending; a font's load stops nobody |
| `SoundCacheAnswers.AllocCachedRoutes` | RecompiledFuncsPoint0/funcs_11.c:1550-1681 | which of the two regions an allocation goes to, for every persistence value, and the row it records |
| `SoundCacheRuns.AllocCachedKeeps` | RecompiledFuncsPoint0/funcs_11.c:518-1681 | every allocation route keeps layout and agreement, and a non-null result is held by an entry |
| `SoundCacheRuns.LoadKeeps` | RecompiledFuncsPoint0/funcs_11.c:5548-6243 | all four loaders keep layout and agreement, duplicates and fallback included |
| `SoundCacheRuns.StepKeepsGood` | RecompiledFuncsPoint0/funcs_11.c:518-1825 | each operation keeps agreement; a completing asynchronous load does so if and only if its id still has an entry |
| `SoundCacheRuns.LiveRegionsDisjoint` | RecompiledFuncsPoint0/funcs_11.c:1308-1549 | in every state any run reaches, live temporary entries lie inside the pool and do not overlap, stray completions included |
| `SoundCacheRuns.RunReady` | RecompiledFuncsPoint0/funcs_11.c:518-1825 | every run of operations keeps the layout and ids in range, whatever the statuses say |
| `SoundCacheRecency.NextSideIsLeastRecent` | RecompiledFuncsPoint0/funcs_11.c:1421-1432 | after any run nextSide names the side not most recently touched: allocated, found, or holding the font a stopping player releases |
| `SoundCacheRecency.EvictsLeastRecent` | RecompiledFuncsPoint0/funcs_11.c:834-843 | with both sides discardable, the next temporary load replaces the least recently used side |
| `SoundCacheArrivals.StepWaiting` | RecompiledFuncsPoint0/funcs_11.c:1308-1549 | an outstanding load stays marked loading and held through any operation but its own, except if and only if a new region is laid over its entry |
| `SoundCacheArrivals.CarefulStep` | RecompiledFuncsPoint0/funcs_12.c:10155-10310 | with no file asked for again while outstanding and none laid over, every arrival finds its entry |
| `SoundCacheArrivals.RunKeepsGood` | RecompiledFuncsPoint0/funcs_11.c:518-1825 | over every such run a nonzero status means the id is held; nothing is assumed about what arrivals find |
| `SoundCacheArrivals.ModestRunsStayGood` | RecompiledFuncsPoint0/funcs_11.c:518-1825 | a rule a caller can follow: any two files of a kind fit its region together, and nothing is asked for twice at once |
| `SoundCacheFailures.EvictedThenArrives` | RecompiledFuncsPoint0/funcs_12.c:10155-10310 | an evicted outstanding file that no persistent entry holds breaks agreement when it arrives |
| `SoundCacheFailures.TwoLoadsIff` | RecompiledFuncsPoint0/funcs_11.c:1324-1408 | from a cold cache two asynchronous loads and the first arrival go well if and only if both files fit together |
| `SoundCacheFailures.DuplicateLoadOrphaned` | RecompiledFuncsPoint0/funcs_11.c:5744-5951 | a file asked for twice before it arrives loses both entries between its arrivals although nothing overlaps |
| `SoundCacheTruth.StepGoodIff` | RecompiledFuncsPoint0/funcs_12.c:10155-10310 | with outstanding files split into held and lost ones, a step keeps agreement if and only if it is not a lost file's arrival |
| `SoundCacheTruth.SplitStep` | RecompiledFuncsPoint0/funcs_11.c:518-1825 | the split is true after every step: lost files are held by no entry, the others wait in one or have a persistent one |
| `SoundCacheTruth.TruthfulIff` | RecompiledFuncsPoint0/funcs_11.c:518-1825 | over every run with nothing asked for twice at once, the status table agrees at every point if and only if no lost file arrives |
| `SoundCacheTruth.TruthfulFromStartIff` | RecompiledFuncsPoint0/funcs_11.c:518-1825 | the same with every prefix of the run written out, from a start with nothing outstanding |
| `SequenceBytes.CompleteEntriesAreRom` | RecompiledFuncsPoint0/funcs_11.c:6125-6243 | over every modest run of loads, transfers landing and arrivals, the region of every temporary sequence marked complete holds its ROM bytes |
| `SequenceBytes.LateLandingOverwrites` | RecompiledFuncsPoint0/funcs_11.c:1308-1432 | the rest of an evicted asynchronous load lands over the entry that replaced it, which keeps its bytes if and only if the files agree where they overlap |
| `SoundCacheRuns.ColdStartGood` | RecompiledFuncsPoint0/funcs_10.c:33185-33215 | the initial state (ids -1, cur = start, entry 1 at the end, nextSide 0) satisfies everything |
| `NoteLists.NoteMemory.AudioListPushFront` | RecompiledFuncsPoint0/funcs_11.c:11104-11146 | push at the front in place; a linked note is left alone |
| `NoteLists.NoteMemory.AudioListRemove` | RecompiledFuncsPoint0/funcs_11.c:11147-11179 | unlinking in place; the list's count is not changed |
| `NoteLists.NoteMemory.AudioListPushBack` | RecompiledFuncsPoint0/funcs_12.c:4596-4638 | push at the back in place; a linked note is left alone |
| `NoteLists.NoteMemory.AudioListPopBack` | RecompiledFuncsPoint0/funcs_12.c:4639-4685 | takes the last note, or null from an empty list |
| `NoteLists.NoteMemory.InitNoteLists` | RecompiledFuncsPoint0/funcs_11.c:10438-10499 | a memberless pool whose heads hold anything becomes four proper empty lists; other pools, proper or not, are left as they are |
| `NoteLists.NoteMemory.InitNoteFreeList` | RecompiledFuncsPoint0/funcs_11.c:10500-10613 | every note ends up on the free pool's disabled list, in address order, while other pools may still be uninitialised |
| `NoteLists.NoteMemory.InitOtherPools` | RecompiledFuncsPoint0/funcs_12.c:12128-12360 | every pool but the free one, initialised one after another while later ones are still raw, ends proper and the free list is kept |
| `NoteLists.BootNotes` | RecompiledFuncsPoint0/funcs_12.c:12128-12360 | start-up in the program's order (free list first, then every other pool) ends with all lists proper and every note free |
| `NoteLists.NoteMemory.NotePoolClear` | RecompiledFuncsPoint0/funcs_11.c:10614-10863 | each class of the pool is appended, in order, to the free list of that class |
| `NoteLists.NoteMemory.NotePoolFill` | RecompiledFuncsPoint0/funcs_11.c:10864-11103 | clear, then draw: the resulting lists are `FillLists` |
| `NoteLists.NoteMemory.ProcessNote` | RecompiledFuncsPoint0/funcs_11.c:9015-9461 | one visit of the per-frame pass does exactly what the table `FateOf` prescribes to the lists |
| `NoteLists.NoteMemory.ProcessNotes` | RecompiledFuncsPoint0/funcs_11.c:8967-9674 | the pass visits every note once, and no note is lost, duplicated or unlinked |
| `NoteLists.NoteMemory.SequenceChannelDisable` | RecompiledFuncsPoint0/funcs_12.c:3689-3867 | the layers' notes decay, then all the channel's notes return to the free pool |
| `NoteListModel.PushFrontOk` | RecompiledFuncsPoint0/funcs_11.c:11104-11146 | pushing keeps every list a circle readable both ways and every note on at most one |
| `NoteListModel.PushBackOk` | RecompiledFuncsPoint0/funcs_12.c:4596-4638 | the same at the back |
| `NoteListModel.RemoveOk` | RecompiledFuncsPoint0/funcs_11.c:11147-11179 | removal keeps all of that |
| `NoteListModel.PopBackOk` | RecompiledFuncsPoint0/funcs_12.c:4639-4685 | popping returns the last note, null exactly for an empty list, and keeps all of that |
| `NotePools.IdlePrimitives` | RecompiledFuncsPoint0/funcs_11.c:11104-11179 | removing is a no-op for exactly the unlinked notes, pushing for exactly the linked ones |
| `NotePools.CountRunsAhead` | RecompiledFuncsPoint0/funcs_11.c:11147-11179 | a note that comes and goes leaves all lists as they were and its list's count one too high |
| `NoteCounts.CountIsExactIff` | RecompiledFuncsPoint0/funcs_11.c:11104-11179 | over any run of the four primitives a list's count gains on its length by exactly the linked notes removed from it; so it stays exact if and only if none was |
| `NotePools.OnExactlyOneList` | RecompiledFuncsPoint0/funcs_11.c:10424-11179 | in a well-formed memory a linked note is at exactly one place of exactly one list |
| `NotePools.ClearingFreePoolSpins` | RecompiledFuncsPoint0/funcs_11.c:10614-10863 | clearing the free pool into itself: after any number of rounds the list is merely rotated and the loop guard still holds |
| `NotePools.FillCount` | RecompiledFuncsPoint0/funcs_11.c:10864-11103 | a pool filled with n holds min(max(n, 0), all free) notes |
| `NotePools.FillInOrder` | RecompiledFuncsPoint0/funcs_11.c:10864-11103 | a later class is drawn from only once the earlier ones are exhausted |
| `NotePools.ClearUndoesFill` | RecompiledFuncsPoint0/funcs_11.c:10614-11103 | clearing after a fill gives every class exactly the notes it had, as multisets |
| `NoteLists.NoteMemory.StopNote` | RecompiledFuncsPoint0/funcs_11.c:9015-9219 | first half of a visit: stop, shut the channel down, skip, or go on |
| `NoteLists.NoteMemory.SettleNote` | RecompiledFuncsPoint0/funcs_11.c:9220-9461 | second half: a finished note is disabled or handed to the layer waiting for it |
| `NotePools.AppendOkBut` | RecompiledFuncsPoint0/funcs_12.c:4596-4638 | filling a proper list leaves uninitialised pools uninitialised and all other lists proper |
| `NotePools.ResetOk` | RecompiledFuncsPoint0/funcs_11.c:10424-10499 | resetting a raw pool's heads makes its lists proper and keeps every other list |
| `NoteFrames.RelocateExact` | RecompiledFuncsPoint0/funcs_11.c:9326-9342 | remove-then-push moves one note within its pool, and nothing else |
| `NoteFrames.RelocateTwice` | RecompiledFuncsPoint0/funcs_11.c:9160-9410 | a note stopped and disabled in the same visit ends as if only disabled |
| `NoteFrames.VisitExact` | RecompiledFuncsPoint0/funcs_11.c:9015-9461 | the two halves of a visit together do what the table prescribes |
| `NoteFrames.FateTable` | RecompiledFuncsPoint0/funcs_11.c:9015-9461 | the outcome of a visit, as equivalences over what is known of the note: shut down, decays, to the waiting layer, disabled, or stays |
| `NoteFrames.DecayedOwners` | RecompiledFuncsPoint0/funcs_11.c:10021-10038 | exactly the notes named change class, to decaying, each within its pool |
| `NoteFrames.ClearedOwner` | RecompiledFuncsPoint0/funcs_11.c:10614-10863 | clearing a pool takes each of its notes to the free list of the same class and moves no other |
| `NoteFrames.ShutdownExact` | RecompiledFuncsPoint0/funcs_12.c:3689-3867 | after a shutdown every layer's note is decaying and every other keeps its class; exactly the notes of the channel's pool are in the free one |
| `NoteFrames.PassFilesEachNote` | RecompiledFuncsPoint0/funcs_11.c:8967-9674 | after any pass, shutdowns included, every note is where its own frame and the shutdowns naming it or its pool put it, in order; nothing else moves it |
| `NoteFrames.FiledAlone` | RecompiledFuncsPoint0/funcs_11.c:8967-9674 | without a shutdown that is the class its own frame decides, within its own pool |
| `NoteFrames.PassKeepsPools` | RecompiledFuncsPoint0/funcs_11.c:8967-9674 | over any pass, channel shutdowns included, every note ends in the pool it came from or in the free pool |
| `FontPatch.LoadedFont.PatchSound` | RecompiledFuncsPoint0/funcs_11.c:5135-5303 | a sample slot is rebased; its sample is placed unless it already was, in RAM exactly when it asks for that and the pool has room |
| `FontPatch.LoadedFont.DmaCopyImmediate` | RecompiledFuncsPoint0/funcs_11.c:3768-3845 | a synchronous transfer: exactly the bytes of the region become the ROM's |
| `FontPatch.LoadedFont.PatchBank` | RecompiledFuncsPoint0/funcs_11.c:5304-5547 | every slot is rebased once and every reachable unloaded instrument, drum and sample exactly once, however they are shared; all else is unchanged |
| `FontPatch.LoadedFont.PatchInstrumentSlot` | RecompiledFuncsPoint0/funcs_11.c:5444-5521 | one more instrument slot processed |
| `FontPatch.LoadedFont.PatchDrumSlot` | RecompiledFuncsPoint0/funcs_11.c:5365-5422 | one more drum slot processed |
| `FontModel.ReachedExact` | RecompiledFuncsPoint0/funcs_11.c:5365-5521 | the recursively collected addresses are exactly those some nonempty slot names |
| `FontModel.SampleGrows` | RecompiledFuncsPoint0/funcs_11.c:5135-5303 | following one more slot places its sample unless an earlier slot did, and disturbs no placed one |
| `FontMeaning.InstrumentSounds` | RecompiledFuncsPoint0/funcs_11.c:5444-5521 | after the patch each instrument slot leads to the three sounds (byte for byte) the file named, their loop and book moved once |
| `FontMeaning.DrumSounds` | RecompiledFuncsPoint0/funcs_11.c:5365-5422 | the same for drum slots |
| `FontMeaning.SecondPatchKeepsSlotIff` | RecompiledFuncsPoint0/funcs_11.c:5444-5460 | table slots have no loaded flag: a second patch leaves a nonempty slot alone if and only if the base is 0 modulo 2^32 |
| `AudioReset.ResetSequencer.ResetStep` | RecompiledFuncsPoint0/funcs_11.c:2366-2775 | one reset step in place: new state and answer are those of `Step` |
| `AudioReset.ResetSequencer.UpdateReverbs` | RecompiledFuncsPoint0/funcs_11.c:2303-2365 | each active reverb gain loses a quarter |
| `AudioReset.ResetSequencer.ClearOutputBuffers` | RecompiledFuncsPoint0/funcs_11.c:2627-2692 | every sample of every output buffer becomes 0, the buffers keep their length |
| `AudioReset.ResetSequencer.ReleaseNotes` | RecompiledFuncsPoint0/funcs_11.c:2494-2577 | exactly the enabled notes with a running envelope are marked for release |
| `ResetModel.Progress` | RecompiledFuncsPoint0/funcs_11.c:2366-2775 | the closed-form distance to the end (29 from status 5) falls by one per call, and the log names exactly the statuses left |
| `ResetModel.ResetEnds` | RecompiledFuncsPoint0/funcs_11.c:2366-2775 | from any status 1-5 and counter the heap is rebuilt on the last of exactly Left(s) calls and never before; a full reset acts in a fixed order |
| `ResetModel.Rests` | RecompiledFuncsPoint0/funcs_11.c:2366-2400 | a finished or unknown status never changes again |
| `ResetModel.AnswerNeverReturns` | RecompiledFuncsPoint0/funcs_11.c:2736-2775 | the answer never goes back from 0 to 1 |
| `ResetModel.OutputDuringReset` | RecompiledFuncsPoint0/funcs_11.c:2627-2692 | over any number of steps: once status 3 has been left every sample of every buffer is 0, until then none has changed; no buffer changes length |
| `ResetModel.NotesDuringReset` | RecompiledFuncsPoint0/funcs_11.c:2494-2577 | a note is releasing exactly if it was, or status 4 has been left while it was enabled with a running envelope |
| `ResetModel.StopsWhenSilent` | RecompiledFuncsPoint0/funcs_11.c:2736-2775 | the synthesiser is told to stop exactly from the step that silences the buffers on |
| `ResetModel.GainsRestored` | RecompiledFuncsPoint0/funcs_11.c:2722-2735 | once the reset is over the gains are the preset's |
| `ResetModel.FadesGeometrically` | RecompiledFuncsPoint0/funcs_11.c:2328-2358 | 3^k g <= 4^k g_k and 4^k (g_k - 3) <= 3^k (g - 3) after k decays, which fixes each decay, and no decay raises a gain |
| `ResetModel.GainsDuringReset` | RecompiledFuncsPoint0/funcs_11.c:2303-2775 | at each point of a reset every active gain has decayed exactly as often as decay steps were taken |
| `ResetModel.FullResetFades` | RecompiledFuncsPoint0/funcs_11.c:2303-2775 | a full reset brings any 16-bit gain to at most 210 before the heap is rebuilt |
| `ChunkedDma.PlayerDma.DmaPartialCopyAsync` | RecompiledFuncsPoint0/funcs_11.c:3908-4014 | one request of at most 0x1000 bytes; source and destination move on together |
| `ChunkedDma.PlayerDma.BankServed` | RecompiledFuncsPoint0/funcs_12.c:10155-10291 | a served request asks for the next chunk or completes the bank |
| `ChunkedDma.PlayerDma.BankLoadAsync` | RecompiledFuncsPoint0/funcs_11.c:5880-5935 | an asynchronous bank load requests its first chunk at once |
| `ChunkedDma.PlayerDma.SequenceServed` | RecompiledFuncsPoint0/funcs_12.c:10293-10338 | the message that ends a sequence load clears the flag and publishes complete; without a load nothing happens |
| `ChunkedDma.PlayerDma.SequenceDmaAsync` | RecompiledFuncsPoint0/funcs_11.c:6125-6213 | a short sequence at once, a longer one as prefix and rest: together one transfer of the whole file |
| `ChunkModel.LoadsWholeFile` | RecompiledFuncsPoint0/funcs_11.c:3908-4014 | after ceil(n / 0x1000) served requests, and not before, the load completes; the log is exactly the adjacent chunks and RAM holds exactly the file |
| `ChunkModel.EachByteOnce` | RecompiledFuncsPoint0/funcs_11.c:3908-4014 | every offset of the file is in exactly one chunk |
| `ChunkModel.PrefixAndRest` | RecompiledFuncsPoint0/funcs_11.c:6125-6213 | the 0x40-byte prefix and the rest tile the file |
| `ChunkModel.PrefixFirst` | RecompiledFuncsPoint0/funcs_11.c:6125-6213 | the first request is the first 0x40 bytes or all of a shorter file; a second starts where it ends and reaches the end |
| `RingCopy.Write` | include/wr64_audio_ring_copy.h:12-21 | the two-part copy lays the samples round the ring from position modulo capacity |
| `RingCopy.Read` | include/wr64_audio_ring_copy.h:25-34 | the two-part copy finds them again; the ring is only read |
| `RingCopy.PcmRing.TryWrite` | include/wr64_audio_ring_copy.h:36-43 | all or nothing: state and result are those of the specification |
| `RingCopy.PcmRing.Submit` | src/switch_io.cpp:97-122 | peek, then commit only if the device took the samples |
| `RingProofs.LaidIsFound` | include/wr64_audio_ring_copy.h:12-34 | what is laid behind m waiting samples is found behind them, and these are intact |
| `RingProofs.StepRefines` | include/wr64_audio_ring_copy.h:36-43 | each call answers as a bounded queue does and keeps the ring holding it |
| `RingProofs.RunRefines` | include/wr64_audio_ring_copy.h:10-43 | so over every run, before a counter wraps or if the capacity divides 2^64 |
| `RingProofs.PeekRepeats` | include/wr64_audio_ring_copy.h:23-34 | until a commit, peeks repeat, whatever is written in between |
| `RingProofs.FifoIffDividesWrap` | include/wr64_audio_ring_copy.h:10-43 | a ring is a queue over all runs from all positions if and only if its capacity divides 2^64 (or is 0) |
| `RingProofs.StraddleFromZero` | include/wr64_audio_ring_copy.h:10-43 | any other ring, silent and with both counters at 0, can be driven by one-sample offers and reads to a state where it loses its place |
| `RingProofs.FreshFifoIffDividesWrap` | include/wr64_audio_ring_copy.h:10-43 | a silent ring as the program creates it, counters at 0, is a queue over all runs if and only if its capacity divides 2^64 (or is 0) |
| `RingProofs.DeviceRingIsNotFifoForever` | src/switch_io.cpp:34 | the 192000-cell device ring is not such a ring |
| `RingProofs.DeviceRingIsFifoBeforeWrap` | src/switch_io.cpp:34 | but it is a queue on every run that stays below the wrap |
| `ReverbZone.ZoneGlobals.EnterZone` | RecompiledFuncsPoint0/funcs_13.c:5932-6140 | entering in place: state and commands are those of `DoEnter` |
| `ReverbZone.ZoneGlobals.LeaveZone` | RecompiledFuncsPoint0/funcs_13.c:6141-6342 | leaving in place: state and commands are those of `DoLeave` |
| `ZoneModel.TwoPlayerCall` | RecompiledFuncsPoint0/funcs_13.c:5932-6342 | in two-player mode every call keeps flags, gain, saved gain and each player's channels exact, in any order |
| `ZoneModel.SharedCallIff` | RecompiledFuncsPoint0/funcs_13.c:6141-6342 | in the other modes a call does so if and only if nobody else stays inside when a player leaves |
| `ZoneModel.ZonesAreTransparent` | RecompiledFuncsPoint0/funcs_13.c:5932-6342 | over every orderly run the original gain is safe while anyone is inside and back exactly when the last one leaves |
| `ZoneModel.TwoPlayerRunsAreOrderly` | RecompiledFuncsPoint0/funcs_13.c:5932-6342 | every run that stays in two-player mode is orderly |
| `ZoneModel.ModesAgreeWhenEmpty` | RecompiledFuncsPoint0/funcs_13.c:5932-6342 | while nobody is inside the mode may change |
| `ZoneModel.ChangeWhileBothInsideFails` | RecompiledFuncsPoint0/funcs_13.c:6141-6342 | after a change with both inside, the first to leave ends the zone for the other |
| `ZoneModel.ChangeWhileInsideFails` | RecompiledFuncsPoint0/funcs_13.c:6141-6342 | a mode change while one player is inside can leave the gain wrong for good |

## Left out

- Registers, stack spills, delay slots and unreachable code of the recompiled functions.
- Operating system calls: a transfer is a copy at the time it is requested, plus a log entry where requests are counted; message queues and cache invalidation are not modelled.
- The transfer that really lands after the request: a caller reading a buffer before the message arrives is not modelled.
- Floating-point audio code (note initialisation, resampling rates, synthetic waves, envelopes, vibrato): it rests on rounding and tables; the note pass takes what it reads about envelopes and layers as input.
- 32-bit wrap-around outside the sample hit test and font relocation: addresses, sizes and counters are unbounded there, as no object crosses the end of the address space.
- The field at offset 0xC of a sample buffer, which is only ever cleared, and the slot counter of the message array.
- SampleDmaServe.ServedBytes: requires that a request fits a short buffer after 16-byte alignment, because a larger one runs past the end of the buffer it is given.
- SampleDma.SampleDmaCache.InitSampleDmaBuffers: requires that the two classes fit the 80 rows of the table, because further buffers would overwrite the variables that follow it.
- SoundCaches.SoundHeap.AllocCached: requires a free row among the 32 persistent ones, because the source writes past the table without a test.
- SoundCaches.SoundHeap.Load: does not model the bytes transferred nor the relocation of a loaded font; the bytes of temporary sequences are `SequenceBytes`, relocation is a part of its own.
- SequenceBytes.CompleteEntriesAreRom: the rest of a load lands as one transfer at any time before the load's arrival; the chunks are the transfer part here. It covers the temporary sequence region: persistent entries are never moved, and fonts are rewritten by relocation.
- SequenceBytes.LateLandingOverwrites: states the case of two sequences from a cold cache, the second loaded synchronously.
- NoteCounts.CountIsExactIff: covers the four list primitives; initialising a list also zeroes its count.
- SoundCaches.SoundHeap.StopPlayer: does not model the player's channels and note pool, which are part of the note lists here, because the caches read only players, statuses and recency.
- SoundCaches.SoundCache.TakeSide: does not model what evicting a font does to the notes that use it, for the same reason.
- SoundCacheArrivals.RunKeepsGood: an arrival names the file that was asked for; which player asked, and what it plays by then, is not modelled.
- NoteLists.NoteMemory.SequenceChannelDisable: does not model the free list of layers nor the channel's and layers' flags, which no list operation reads.
- ChunkedDma.PlayerDma.BankServed: completes the load without relocating the font, which is modelled separately.
- ChunkedDma.PlayerDma.BankLoadAsync: starts after the file's header was read and the font's table entry was filled in.
- What discarding a font does to the notes that use it (disabling them and moving them to the disabled list); the caches only read which fonts sounding notes use.
- The status shortcut of the sequence preloader, which indexes the font status table with a sequence id.
- Residency of all banks after an immediate load of several: a later bank may evict an earlier one.
- The list of free layers, which uses the same list primitives, and the allocation of notes by priority.
- NoteLists.NoteMemory.ProcessNotes: the facts read about each note (layer, player, priority, envelope) are given in advance, one frame per note, not derived from the sequence player.
- FontPatch.LoadedFont.PatchBank: instruments, drums, samples and tables are separate objects in separate maps, so a malformed file in which they overlap byte for byte is not modelled; the sample pool does not overlap the font.
- FontMeaning.InstrumentSounds: equates sounds that were still to be placed; a sample that was already placed by an earlier font is unchanged (`PatchBank`).
- AudioReset.ResetSequencer.ResetStep: stopping the players and rebuilding the heap are log entries and, for the gains, the preset values; what else the heap initialiser builds is not part of this model.
- Negative sizes in the chunked transfer, which the loaders never produce.
- RingCopy.PcmRing.Submit: the device queue and its buffers are reduced to whether the device took the samples.
- Controller pak, achievements, ghost data, free ride, previews and other interfaces whose implementation is not in the repository.
- Enhancement controls, icon and volume helpers and similar leaf functions, which would add only easy members.
