# Verified models of firedancer's storage and policy code

This project models eight pieces of the repository in Dafny and proves what they promise, for every input, every run or every interleaving.

* **Groove data allocator** (`Groove*.dfy`). A lock-free allocator in which superblocks nest inside objects of larger size classes down from 1 GiB volumes. It is a step system: any number of threads, one step per atomic operation (load, exchange, compare-and-swap, fetch-and-add, fetch-and-sub), any interleaving. Ownership is bookkeeping in the state. The proof follows from one invariant: a superblock with a free object is in exactly one place of circulation. Everything is proved for any size-class table that nests, and the shipped table is shown to nest. `GrooveOutcome.dfy`, `GrooveSolo.dfy` and `GrooveBack.dfy` prove what alloc and free achieve: the class asked for, an end when left alone, and memory given back. Sizes, headers and pointers are in `GrooveAddr.dfy`, the `free_objs` word in `GrooveWord.dfy`.
* **Vinyl key-value store** (`Vinyl*.dfy`). ACQUIRE, RELEASE, ERASE, MOVE, FETCH and FLUSH over a meta table, cache lines, data objects, an append-only log, quotas and garbage counters. `VinylStep.dfy` gives each request item as a function on an abstract store. `VinylInv.dfy` to `VinylMain.dfy` prove what whole runs guarantee. `VinylEffect.dfy` says what each item leaves in the cache, `VinylVersion.dfy` what a line's version vouches for. `VinylTable.dfy` is the linear-probing meta with removal by shifting back. `VinylTile.dfy` is the tile as it runs, with arrays updated in place, proved to do exactly what the step functions say; `VinylServer.dfy` is the request loop with quotas. An item asks for a free address only if it allocates, and free means at that moment: a miss may reuse the object its own eviction freed.
* **Seccomp policy compiler** (`Seccomp*.dfy`). The policy language and its meaning, labelled programs and their meaning, label resolution into 8-bit forward offsets, the BPF machine, the compiler as functions, and the compiler as the program object that the source appends to. `SeccompLabels.dfy` to `SeccompComplete.dfy` prove which policies it accepts, from the policy alone.
* **Geo-IP sweep** (`GeoSweep.dfy`), **shred join** (`ShredJoin.dfy`), **read-write spin lock** (`RwLock.dfy`), **hash variants** (`HashVariants.dfy`, and values of the reference hash in `HashFacts.dfy`) and the **timestamp codec** (`TsCodec.dfy`).

Where the code does not meet a property, the code is kept as it is and the exact condition is proved:

* MOVE overwrites the cached header's key before it writes the move block, so the block names the destination as its own source. Recovery rejects such a block. Recovery after a run reads the whole log if and only if the run made no successful move to a different key (`VinylMain.RunRecovers`, with the family in `VinylMain.MoveStopsRecovery` and one input in `VinylMain.MoveThenRecover`).
* An inactive-stack pop is a pop of one top element as long as fewer than 512 operations completed on the stack since its load (`GrooveAlloc.PopIsPop`). A pop whose compare-and-swap matches keeps the invariant if and only if the element it read below the top is still there (`GrooveAlloc.PopInv`); on the stack word and its links, 512 completed operations are enough for the word to match again without that (`GrooveSafety.LatePopBreaks`). A push needs no such proviso (`GrooveAlloc.PushIsPush`).
* A bare `(arg N)` in a policy has no truth value, yet the compiler takes it: its code falls through to whatever follows. For every accepted policy the filter is characterised exactly (`SeccompPolicy.FilterAnswers`): such an operand is passed over, and the last one leaves its list undecided. As a whole condition, negated or not, it denies (`SeccompPolicy.BareArgDenies`); at the end of an `or` inside an `and` it makes the tests of the `or` disappear (`SeccompPolicy.BareArgDropsTest`). Policies without it mean what they say (`SeccompPolicy.FilterCorrect`).
* Timestamp decompression undoes compression if and only if the wrapped distance to the reference lies in [-2^31, 2^31) (`TsCodec.RoundTrip`); the comment in the source states the open interval.

Steps are sequentially consistent. Clocks, randomness, addresses handed out by allocators, garbage read from stale memory, the encoding chosen by compression and the values of C constants are parameters.

## Model

| member | source | states |
|---|---|---|
| GrooveConfig.TableIsValid | src/groove/fd_groove_data_szc_cfg.c:5-38 | the shipped table nests: every superblock fits an object of its parent class or a volume, and footprints strictly ascend |
| GrooveGeometry.ObjectsDisjoint | src/groove/fd_groove_data.c:444-449 | two objects in use in any two superblocks, however deeply nested, occupy disjoint ranges |
| GrooveGeometry.ObjectOffHeaders | src/groove/fd_groove_data.c:361-375 | an object in use that is not itself a superblock overlaps no superblock header block anywhere |
| GrooveGeometry.RootOf | src/groove/fd_groove_data.c:324-376 | every superblock lies inside the data region of one volume in use |
| GrooveAlloc.PopIsPop | src/groove/fd_groove_data.c:104-127 | a pop whose compare-and-swap matches fewer than 512 operations after its load removes exactly the top element |
| GrooveAlloc.PushIsPush | src/groove/fd_groove_data.c:64-84 | a push whose compare-and-swap matches adds exactly its element on top, however many operations came between |
| GrooveAlloc.ExchangeInv | src/groove/fd_groove_data.c:31-46 | swapping the superblock in hand with an active slot keeps every superblock in one place |
| GrooveAlloc.TakeStepInv | src/groove/fd_groove_data.c:409-442 | clearing the picked bit keeps the invariant; taking the last free object takes the superblock out of circulation |
| GrooveAlloc.GiveStepInv | src/groove/fd_groove_data.c:630-670 | setting a freed bit keeps the invariant; only the thread that freed into a full superblock puts it back. What a free gives back is GrooveBack.FreeAlone and GrooveBack.FreeEnds |
| GrooveAlloc.CarveStepInv | src/groove/fd_groove_data.c:353-376 | formatting an object as a superblock keeps the invariant although frees go on concurrently |
| GrooveAlloc.CarveVolumeStepInv | src/groove/fd_groove_data.c:324-352 | formatting an acquired volume keeps the invariant |
| GrooveAlloc.UncarveStepInv | src/groove/fd_groove_data.c:682-757 | a popped superblock seen completely free is used by nobody else and can be given back |
| GrooveAlloc.PopInv | src/groove/fd_groove_data.c:96-132 | a pop that matches keeps the invariant if and only if the element it read below the top is the one below the top now |
| GrooveAlloc.TimelyCurrent | src/groove/fd_groove_data.c:104-127 | fewer than 512 operations after its load, what a matching pop read is current |
| GrooveAlloc.PushInv | src/groove/fd_groove_data.c:56-87 | a successful push keeps the invariant |
| GrooveSafety.NextInv | src/groove/fd_groove_data.c:268-451 | every step of every thread, every start of an alloc or free and every pool change keeps the invariant. What alloc and free achieve is GrooveOutcome.AllocEnds and the rows after it |
| GrooveSafety.AlwaysSane | src/groove/fd_groove_data.c:391-436 | the consistency tests on superblock headers and bit fields, on full superblocks in circulation and on double frees never fire |
| GrooveSafety.ReachableOnePlace | src/groove/fd_groove_data.c:379-442 | in every reachable state a superblock with a free object is in exactly one active slot, stack position or hand, and a full one in none |
| GrooveSafety.ReachableWellPlaced | src/groove/fd_groove_data.c:444-449 | in every reachable state a live allocation lies in one volume's data region, off every header and off every other live allocation |
| GrooveSafety.ReachablePoolUnused | src/groove/fd_groove_data.c:729-756 | in every reachable state a pooled volume overlaps no live allocation |
| GrooveSafety.ReachableProgress | src/groove/fd_groove_data.c:509-761 | a thread in alloc or free is never stuck: it always has a next step |
| GrooveSafety.LatePopBreaks | src/groove/fd_groove_data.c:114-124 | on the stack word and its links: after exactly 512 completed operations the 9-bit tag matches again and a pop can install an element that is not below the top |
| GrooveSafety.OffsetsAligned | src/groove/fd_groove_data.c:67-72 | superblock offsets are multiples of the block size, so tag and offset do not share bits |
| GrooveSafety.WordInjective | src/groove/fd_groove_data.c:107-118 | equal packed words mean equal tag and equal offset |
| GrooveSafety.GrooveIsSafe | src/groove/fd_groove_data.c:268-761 | the three safety results together for the shipped table |
| GrooveOutcome.LiveAsAsked | src/groove/fd_groove_data.c:444-449 | in every run whatever becomes live is handed out by a thread in alloc, was not live before, and lies in a superblock of the class that alloc was asked for, however many classes it carved on the way |
| GrooveOutcome.AllocEnds | src/groove/fd_groove_data.c:324-358 | in every run an alloc ends with a new object of the class asked for, or with nothing changed at a moment when the volume pool was empty |
| GrooveSolo.SoloBounded | src/groove/fd_groove_data.c:268-451 | a thread that runs alone, from any state the others left, is done after at most Rank steps, whatever the environment decides |
| GrooveSolo.SoloFinishes | src/groove/fd_groove_data.c:96-132 | and such a run to the end exists from every state in which the word a pop loaded is fewer than 512 operations old |
| GrooveSolo.NextKeepsLive | src/groove/fd_groove_data.c:574-644 | no step of anybody but the free of that very allocation takes a live allocation away, moves it or changes its class |
| GrooveSolo.AllocAlone | src/groove/fd_groove_data.c:268-451 | an alloc that runs alone while the pool has a volume ends with a new live object of the class asked for |
| GrooveSolo.AllocFirst | src/groove/fd_groove_data.c:295-316 | alone it takes the least free object of the superblock in its own active slot or, if that is empty, of the one on top of the inactive stack, and leaves that superblock in the slot unless it is full now |
| GrooveBack.FreeAlone | src/groove/fd_groove_data.c:670-756 | a free that makes its superblock completely free while one on top of the inactive stack is completely free takes that one away; every superblock gone left a free object in the superblock it was carved from, or its volume in the pool |
| GrooveBack.SearchedStack | src/groove/fd_groove_data.c:309-320 | alloc goes for a new superblock only from a moment at which the inactive stack of the class was empty |
| GrooveBack.FreeEnds | src/groove/fd_groove_data.c:646-757 | a free stops only when its superblock is in circulation and not completely free, no other is left to give back, the one it holds is in a slot or on a stack again, or its volume is in the pool |
| GrooveWord.SubIsRemove | src/groove/fd_groove_data.c:420-428 | subtracting a free object's bit removes that object from the set and touches no other |
| GrooveWord.AddIsInsert | src/groove/fd_groove_data.c:597-636 | adding the bit of an object in use inserts that object and touches no other |
| GrooveWord.WordDetermines | src/groove/fd_groove_data.c:438-438 | a word determines its set of free objects |
| GrooveWord.ShiftedOut | src/groove/fd_groove_data.c:414-414 | the range test by shifting is the test that no object past the count is marked |
| GrooveAddr.SizeCheckExact | src/groove/fd_groove_data.c:471-486 | under 64-bit wraparound the checks accept exactly the power-of-two alignments up to 512 and the sizes whose true footprint fits, and compute that footprint |
| GrooveAddr.SizeClass | src/groove/fd_groove_data.h:338-364 | five rounds of halving return the least class that fits |
| GrooveAddr.AcceptedHasClass | src/groove/fd_groove_data.c:488-490 | every accepted request meets what the search asks of its caller |
| GrooveAddr.HeaderRoundTrip | src/groove/fd_groove_data.h:275-295 | type, index, size class, alignment, size and tag put into a header all come back |
| GrooveAddr.PointerRoundTrip | src/groove/fd_groove_data.h:305-317 | from the returned pointer the object header and the superblock are recovered exactly; the pointer is aligned and the bytes asked for fit |
| VinylTypes.Appended | src/vinyl/io/fd_vinyl_io.c:62-87 | appending moves nothing: every block keeps its position and the new one is at the old end |
| VinylTypes.PairSzTight | src/vinyl/bstream/fd_vinyl_bstream.h:331-339 | the footprint of a pair is the least number of whole blocks with room for header, value and footer |
| VinylStore.WrittenOk | src/vinyl/fd_vinyl_case_release.c:185-227 | committing changes the committed map at that key only, to the info and value committed |
| VinylStore.ErasedOk | src/vinyl/fd_vinyl_case_release.c:321-340 | erasing removes that key from the committed map and nothing else |
| VinylStore.CreatedOk | src/vinyl/fd_vinyl_case_acquire.c:353-373 | a pair being created is not yet in the committed map |
| VinylStore.MovedOk | src/vinyl/fd_vinyl_case_move.c:278-316 | the persistent part of a move takes src out and gives dst src's info and value |
| VinylInv.VictimStored | src/vinyl/line/fd_vinyl_line.c:46-92 | if some line is unheld, eviction finds an unheld one, and what it caches is safe in the log |
| VinylInv.LoadOk | src/vinyl/fd_vinyl_case_acquire.c:236-259 | evicting and loading an uncached pair keeps meta, lines and objects mutually consistent, also when the new object takes the address the eviction has freed |
| VinylInv.VictimFreed | src/vinyl/line/fd_vinyl_line.c:64-72 | the address of the object an eviction frees is one the allocator may hand out next |
| VinylInv.PrioritizePlaces | src/vinyl/line/fd_vinyl_line.c:3-42 | reprioritising puts a line at the end asked for and keeps the turns of all others |
| VinylOps.AcquireOk | src/vinyl/fd_vinyl_case_acquire.c:33-385 | ACQUIRE keeps the invariant and the committed map, with any object the allocator may return at the moment it is asked; when it fails nothing changes |
| VinylOps.ReleaseOk | src/vinyl/fd_vinyl_case_release.c:105-342 | RELEASE keeps the invariant; reads and cancels keep the committed map, commit puts the buffer's pair, erase removes the key. What it leaves in the cache, versions included, is VinylEffect.ReleaseEffect |
| VinylOps.EraseOk | src/vinyl/fd_vinyl_case_erase.c:13-104 | ERASE succeeds exactly on existing unheld keys and removes exactly that key; otherwise nothing changes |
| VinylOps.FlushOk | src/vinyl/fd_vinyl_case_flush.c:7-66 | FLUSH keeps the invariant and the whole persistent side |
| VinylOps.FetchOk | src/vinyl/fd_vinyl_case_fetch.c:6-114 | FETCH keeps the invariant and the whole persistent side; that it fetches is VinylEffect.FetchEffect |
| VinylOps.MoveLoadOk | src/vinyl/fd_vinyl_case_move.c:93-186 | loading src leaves src cached and unheld and dst unheld, also when it evicts dst |
| VinylOps.MoveOk | src/vinyl/fd_vinyl_case_move.c:23-318 | a successful MOVE of distinct keys turns the committed map M into M without src and with dst mapped to src's content, and lowers pair_cnt exactly if dst existed; a failed one changes nothing; success is characterised both ways |
| VinylOps.ClientWriteOk | src/vinyl/fd_vinyl_case_acquire.c:182-198 | a client writing into a buffer it holds for modify breaks nothing |
| VinylEffect.FetchEffect | src/vinyl/fd_vinyl_case_fetch.c:62-112 | FETCH of a stored pair leaves it cached and most recently used, with its committed value unless held for modify; one that was not cached takes the first unheld line in turn, two versions on, and nothing else changes but what that line cached |
| VinylEffect.FlushEffect | src/vinyl/fd_vinyl_case_flush.c:41-62 | FLUSH empties the line of an unheld key, puts the line of a held one next in turn and leaves an uncached key alone |
| VinylEffect.EraseEffect | src/vinyl/fd_vinyl_case_erase.c:33-100 | ERASE fails with KEY exactly on a missing key and with AGAIN exactly on a held one; a successful one empties the line and appends the dead block of that pair |
| VinylEffect.AcquireCachedEffect | src/vinyl/fd_vinyl_case_acquire.c:87-198 | a granted acquire of a cached pair touches only its line: a reader raises the count, a modify takes the line one version on and to the tightest class with the room asked for |
| VinylEffect.AcquireMissEffect | src/vinyl/fd_vinyl_case_acquire.c:202-385 | a granted acquire of an uncached pair takes the first unheld line in turn, two versions on, and changes no other |
| VinylEffect.CreateEffect | src/vinyl/fd_vinyl_case_acquire.c:353-373 | creating adds one record, marked as being created, and appends nothing |
| VinylEffect.ReleaseEffect | src/vinyl/fd_vinyl_case_release.c:105-342 | RELEASE touches only its line: a commit leaves the committed pair cached one version on, a cancel one version back, every other release of a modify empties the line |
| VinylEffect.MoveErrors | src/vinyl/fd_vinyl_case_move.c:23-92 | MOVE fails with KEY exactly if src is missing and with AGAIN exactly if one of the two is held, the held destination being tested first |
| VinylEffect.MoveEffect | src/vinyl/fd_vinyl_case_move.c:93-318 | a successful MOVE leaves dst cached and unheld in the line src had or was loaded into, with a new version, src uncached, and the line dst had empty and next in turn |
| VinylEffect.MoveLogs | src/vinyl/fd_vinyl_case_move.c:278-306 | a move appends a move block naming dst twice, and the pair of dst with the content of src |
| VinylEffect.CommitRaises | src/vinyl/fd_vinyl_case_release.c:212-216 | acquiring a cached pair for modify, writing and committing puts what was written into the committed map and leaves the line two versions on |
| VinylVersion.ItemVersioned | src/vinyl/line/fd_vinyl_line.h:76-79 | every item takes every line at most two versions on, not counting the one a modify in progress would lose again by a cancel, and a line that is not taken on stands for the same pair |
| VinylVersion.SameVersionSamePair | src/vinyl/line/fd_vinyl_line.h:76-79 | between two moments of any run at which a line is not held for modify, the same version means the same key, info and value, if it went through fewer than 2^32 versions |
| VinylQuota.AcquireTakes | src/vinyl/fd_vinyl_case_acquire.c:23-31 | outstanding acquires grow by one exactly on success |
| VinylQuota.ReleaseReturns | src/vinyl/fd_vinyl_case_release.c:23-31 | outstanding acquires drop by exactly one on a release |
| VinylQuota.MoveTakes | src/vinyl/fd_vinyl_case_move.c:96-186 | MOVE leaves the number of outstanding acquires unchanged |
| VinylQuota.IdleLine | src/vinyl/line/fd_vinyl_line.c:56-92 | fewer outstanding acquires than lines leaves a line with ref 0 |
| VinylRun.AlwaysEvictable | src/vinyl/fd_vinyl_case_acquire.c:202-206 | in every state with the quota invariant an eviction finds a line |
| VinylRun.ReadersFit | src/vinyl/fd_vinyl_case_acquire.c:100-101 | the too-many-readers check cannot fire for a client with quota left |
| VinylRun.ItemOk | src/vinyl/fd_vinyl_exec.c:544-558 | every request item keeps the invariant, both ledgers and the quota balance, and makes move blocks only by a successful move |
| VinylRun.BatchOk | src/vinyl/fd_vinyl_case_acquire.c:13-31 | a whole batch does, and an accepted acquire batch never takes quota below zero |
| VinylRun.EventOk | src/vinyl/fd_vinyl_exec.c:268-400 | joins and leaves keep the quota balance |
| VinylRun.RunOk | src/vinyl/fd_vinyl_exec.c:502-656 | any run of events keeps all of it |
| VinylRun.ReleaseErrors | src/vinyl/fd_vinyl_case_release.c:45-103 | RELEASE succeeds exactly if its key or address means a held line, which is then the only one and the one released, and replies INVAL otherwise |
| VinylRun.RequestServed | src/vinyl/fd_vinyl_case_acquire.c:13-31 | a request of a joined client is done in full, item by item, at that client's charge, unless it acquires more than the quota left; then, or without a join, nothing changes |
| VinylRun.MembersServed | src/vinyl/fd_vinyl_exec.c:268-400 | a client is admitted exactly if it is new and its quota is to be had and within the limit, and leaves exactly when nothing it acquired is outstanding |
| VinylLog.RecoverStops | src/vinyl/fd_vinyl_recover_serial.c:204-222 | recovery never gets past a move block that names one key twice |
| VinylLog.RecoverSound | src/vinyl/fd_vinyl_recover_serial.c:31-330 | of any log whatever, recovery rebuilds the replay of the blocks it accepted, never more than pair_max pairs, each dead or move block naming the very pair it takes away and each move block followed by its pair |
| VinylLog.RecoversOneMore | src/vinyl/fd_vinyl_recover_serial.c:44-200 | recovery of a log plus a pair or dead block it accepts is recovery of the log followed by that block |
| VinylLog.LogWritten | src/vinyl/fd_vinyl_case_release.c:194-227 | after a commit, replaying the log still gives exactly the stored records, at the positions the meta names |
| VinylLog.LogErased | src/vinyl/fd_vinyl_case_erase.c:86-99 | after an erase, replaying the log still gives exactly the stored records |
| VinylLog.RecoveryExact | src/vinyl/fd_vinyl_recover_serial.c:31-330 | recovery reads the whole log exactly when it holds no move block, and then rebuilds exactly the stored records |
| VinylLog.LedgerWritten | src/vinyl/fd_vinyl_case_release.c:185-201 | a commit balances: what is appended is live or counted as garbage, in blocks and in bytes |
| VinylLog.LedgerErased | src/vinyl/fd_vinyl_case_erase.c:86-92 | an erase balances in blocks and in bytes |
| VinylLog.LedgerMoved | src/vinyl/fd_vinyl_case_move.c:201-211 | a move balances in blocks and in bytes |
| VinylMain.RunSafe | src/vinyl/fd_vinyl_exec.c:502-656 | after any run from boot meta, cache, objects and log agree, no quota is negative, quota and outstanding acquires add up to one less than the lines, and a line can be evicted |
| VinylMain.CacheAgrees | src/vinyl/fd_vinyl_case_acquire.c:157-186 | in every state with the invariant keys and lines are mutually inverse, a pair being created is cached with ref -1, and a line with ref >= 0 has its record's key and info, the committed value and the tightest size class |
| VinylMain.RunLedger | src/vinyl/fd_vinyl_case_release.c:185-201 | over any run blocks appended are live pairs gained plus garbage, the same in bytes, and pair_cnt is the number of meta elements |
| VinylMain.RunRecovers | src/vinyl/fd_vinyl_recover_serial.c:31-330 | over any run recovery reads the whole log exactly when no pair was moved to another key, and then gives exactly the committed map |
| VinylMain.MoveStopsRecovery | src/vinyl/fd_vinyl_case_move.c:283-306 | after any successful move to another key recovery stops before the end of the log |
| VinylMain.MoveThenRecover | src/vinyl/fd_vinyl_case_move.c:283-306 | one concrete tile and move for which it does |
| VinylMain.RunKeeps | src/vinyl/fd_vinyl_case_acquire.c:100-126 | while a line is held for read no events of any clients change its key, object, header, value, version or committed pair |
| VinylMain.ReaderSees | src/vinyl/fd_vinyl_case_acquire.c:103-117 | a held-for-read buffer is exactly the committed pair |
| VinylMain.ReleaseChecks | src/vinyl/fd_vinyl_case_release.c:119-162 | the header and size-class checks of a release never fire |
| VinylMain.AcquireGrants | src/vinyl/fd_vinyl_case_acquire.c:87-198 | the reply depends on holds alone, not on caching, and a granted acquire holds the key with the buffer it promised |
| VinylMain.CancelUndoes | src/vinyl/fd_vinyl_case_release.c:246-286 | acquiring a cached pair for modify and cancelling untouched restores its line, version, header and value, and the persistent side |
| VinylTable.Query | src/vinyl/meta/fd_vinyl_meta.c:19-52 | probing finds a key if and only if it is there, and otherwise the slot where it can be inserted |
| VinylTable.InsertOk | src/vinyl/meta/fd_vinyl_meta.c:31-35 | inserting at the slot a failed query returned keeps every key findable |
| VinylTable.MoveStep | src/vinyl/meta/fd_vinyl_meta.c:110-156 | moving a cut-off element into the hole repairs it and cuts off nothing that was repaired |
| VinylTable.Remove | src/vinyl/meta/fd_vinyl_meta.c:54-161 | removal by shifting back removes one key, keeps every other element findable and unchanged, and repairs the lines of relocated elements |
| VinylRep.RepLinked | src/vinyl/fd_vinyl_case_acquire.c:236-245 | in the arrays line.ele_idx and ele.line_idx are mutually inverse |
| VinylTile.Tile.constructor | src/vinyl/fd_vinyl_exec.c:102-102 | an empty tile is valid |
| VinylTile.Tile.FindVictim | src/vinyl/line/fd_vinyl_line.c:54-87 | the walk from the least recently used line ends at the first unheld one |
| VinylTile.Tile.Clear | src/vinyl/line/fd_vinyl_line.c:64-82 | freeing a line's object and unlinking its slot is the abstract drop |
| VinylTile.Tile.LoadLine | src/vinyl/fd_vinyl_case_acquire.c:236-259 | evict, link and reprioritise is the abstract load, also into the address just freed |
| VinylTile.Tile.AcquireItem | src/vinyl/fd_vinyl_case_acquire.c:33-385 | one ACQUIRE item on the arrays is the ACQUIRE step, with the same reply |
| VinylTile.Tile.ResolveKey | src/vinyl/fd_vinyl_case_release.c:69-103 | release by key finds the held line of that key or fails |
| VinylTile.Tile.ResolveAddr | src/vinyl/fd_vinyl_case_release.c:45-67 | release by value address finds the one held line whose object has it or fails |
| VinylTile.Tile.CommitAt | src/vinyl/fd_vinyl_case_release.c:138-231 | commit on the arrays is the commit step, of which VinylEffect.ReleaseEffect and VinylVersion.SameVersionSamePair speak |
| VinylTile.Tile.ReleaseLineAt | src/vinyl/fd_vinyl_case_release.c:105-342 | one RELEASE item on the arrays is the RELEASE step |
| VinylTile.Tile.RemoveSlot | src/vinyl/fd_vinyl_case_release.c:334-340 | taking a key out of the meta leaves every other record, line and object as it was although slots move |
| VinylTile.Tile.EraseItem | src/vinyl/fd_vinyl_case_erase.c:13-104 | one ERASE item on the arrays is the ERASE step, with the same reply |
| VinylTile.Tile.FlushItem | src/vinyl/fd_vinyl_case_flush.c:7-66 | one FLUSH item on the arrays is the FLUSH step |
| VinylTile.Tile.FetchItem | src/vinyl/fd_vinyl_case_fetch.c:6-114 | one FETCH item on the arrays is the FETCH step, of which VinylEffect.FetchEffect speaks |
| VinylTile.Tile.MoveItem | src/vinyl/fd_vinyl_case_move.c:23-318 | one MOVE item on the arrays, with eviction of dst's line and relocation of src's slot, is the MOVE step, with the same reply |
| VinylTile.MoveLoadAlias | src/vinyl/fd_vinyl_case_move.c:172-186 | loading src takes dst's line exactly when it ends up in that line, which is what the source tests |
| VinylServer.Server.constructor | src/vinyl/fd_vinyl_exec.c:102-102 | serving starts with all quota but one line's worth to give out |
| VinylServer.Server.DoOne | src/vinyl/fd_vinyl_exec.c:544-558 | dispatching an item to its handler is that item's step |
| VinylServer.Server.Handle | src/vinyl/fd_vinyl_case_acquire.c:13-31 | a batch charges and credits its sender item by item exactly as the run model says, or is refused whole |
| VinylServer.Server.Admit | src/vinyl/fd_vinyl_exec.c:268-340 | a join takes its quota from what is left, or is refused |
| VinylServer.Server.Dismiss | src/vinyl/fd_vinyl_exec.c:363-400 | a leave returns its quota, or is refused while acquires are outstanding |
| SeccompCode.ResolvePreserves | contrib/codegen/generate_filters.py:336-382 | the filter with resolved offsets does what the labelled program means, from every position |
| SeccompCode.AlwaysReturns | contrib/codegen/generate_filters.py:341-348 | an accepted program that ends in a RET returns from every position |
| SeccompCorrect.WordValues | contrib/codegen/generate_filters.py:262-278 | the two words of an immediate are its low and high halves |
| SeccompCorrect.OrderWide | contrib/codegen/generate_filters.py:420-453 | the three-jump form of a 64-bit order comparison decides that comparison |
| SeccompCorrect.EqWide | contrib/codegen/generate_filters.py:390-396 | the two-jump form of 64-bit equality decides equality |
| SeccompCorrect.CmpCorrect | contrib/codegen/generate_filters.py:385-453 | a comparison's code goes to its true label exactly when the comparison holds at the argument's width |
| SeccompCorrect.ComparisonCorrect | contrib/codegen/generate_filters.py:489-507 | also with the argument on the right and the operator mirrored |
| SeccompCorrect.EmitCorrect | contrib/codegen/generate_filters.py:460-511 | the code of any accepted condition, wherever it lands, goes to the label the condition decides for, and on to what follows it if the condition decides nothing |
| SeccompCorrect.DecidesTruth | contrib/codegen/generate_filters.py:460-511 | an accepted condition without a bare argument decides, and decides its truth |
| SeccompPolicy.CheckCorrect | contrib/codegen/generate_filters.py:551-559 | a syscall's check allows exactly when its condition decides for the call |
| SeccompPolicy.DispatchCorrect | contrib/codegen/generate_filters.py:523-549 | from any dispatch comparison on, the filter returns what the remaining entries say |
| SeccompPolicy.FilterAnswers | contrib/codegen/generate_filters.py:333-334 | every accepted policy's filter, bare arguments or not, answers every call within instruction_count steps and allows it exactly when the architecture matches and its entry is unconditional or decides for it |
| SeccompPolicy.FilterCorrect | contrib/codegen/generate_filters.py:514-562 | every accepted policy without a bare argument allows a call exactly when the architecture matches, the syscall is listed and its condition holds unsigned at the argument's width |
| SeccompPolicy.BareArgDenies | contrib/codegen/generate_filters.py:508-509 | a bare argument and its negation both compile to a check that denies every call |
| SeccompPolicy.BareArgDropsTest | contrib/codegen/generate_filters.py:469-511 | an or that ends in a bare argument has no effect before another operand of an and: that operand alone decides |
| SeccompAccept.EmitAccepted | contrib/codegen/generate_filters.py:460-511 | a condition compiles exactly if it is built of not, and, or and arguments compared with an immediate of 32 bits, the argument having a known prototype; generated labels never clash |
| SeccompAccept.ShapedApart | contrib/codegen/generate_filters.py:351-364 | labels of a compiled program are distinct and have an instruction between them, so the two label checks of render never fire |
| SeccompReach.EncodeAllIff | contrib/codegen/generate_filters.py:366-382 | rendering gets through exactly if every jump can be encoded |
| SeccompReach.EmitEncodes | contrib/codegen/generate_filters.py:341-348 | the code of a condition has the size read off the condition, and its jumps can be encoded exactly if the distances read off the condition are at most 255 |
| SeccompComplete.CompileAccepts | contrib/codegen/generate_filters.py:514-562 | the compiler accepts a policy exactly if its syscalls are distinct, its conditions are conditions, no name made from it is made twice and no jump is longer than 255; the filter then has the number of instructions read off the policy |
| SeccompComplete.PlainAccepts | contrib/codegen/generate_filters.py:514-562 | distinct syscalls, none named RET or starting with check, conditions that are conditions and at most 256 instructions are enough |
| SeccompComplete.UnconditionalAccepts | contrib/codegen/generate_filters.py:523-549 | a policy without conditions is accepted exactly if it names each syscall once and at most 254 of them |
| SeccompProgram.Program.constructor | contrib/codegen/generate_filters.py:302-304 | a new program is empty |
| SeccompProgram.Program.NewLabel | contrib/codegen/generate_filters.py:306-308 | label names count up |
| SeccompProgram.Program.AddLabel | contrib/codegen/generate_filters.py:310-313 | a label is appended unless its name is taken |
| SeccompProgram.Program.EmitArgEq | contrib/codegen/generate_filters.py:385-396 | appends the equality code or fails exactly as the compiler function does |
| SeccompProgram.Program.EmitArgCmp | contrib/codegen/generate_filters.py:399-453 | appends the comparison code or fails exactly as the compiler function does |
| SeccompProgram.Program.EmitExpr | contrib/codegen/generate_filters.py:460-511 | appends a condition's code or fails exactly as the compiler function does |
| SeccompProgram.Program.EmitOperands | contrib/codegen/generate_filters.py:469-488 | the operand loop of and/or is the recursive form |
| SeccompProgram.Program.CollectLabels | contrib/codegen/generate_filters.py:351-359 | the first pass maps exactly the labels to their instruction indices, or finds a duplicate |
| SeccompProgram.Program.LabelsShareNoLine | contrib/codegen/generate_filters.py:361-364 | the second pass holds exactly when no two labels share an instruction |
| SeccompProgram.Program.Render | contrib/codegen/generate_filters.py:350-382 | the three passes give the resolved program or reject; when they reject is SeccompReach.EncodeAllIff and SeccompAccept.ShapedApart |
| SeccompProgram.CompilePolicy | contrib/codegen/generate_filters.py:514-562 | compiling in place accepts the same policies and yields the same filters as the compiler function; which policies those are is SeccompComplete.CompileAccepts |
| GeoSweep.Nested | contrib/geoip_db.py:51-58 | of two overlapping aligned ranges in sort order the later ends inside the earlier and has the longer prefix |
| GeoSweep.LookupLongest | contrib/geoip_db.py:51-58 | the last match in sort order is a longest match |
| GeoSweep.EmitCovers | contrib/geoip_db.py:67-75 | emitting repaints exactly the addresses from its start on and keeps starts strictly increasing |
| GeoSweep.Flatten | contrib/geoip_db.py:66-88 | segment starts strictly increase from 0 and the covering segment of every address carries the last match in sort order, or UNKNOWN |
| ShredJoin.Source.constructor | contrib/blockstore/blockstore2shredcap.c:665-669 | a new source has the whole join pending |
| ShredJoin.Source.Next | contrib/blockstore/blockstore2shredcap.c:686-765 | each call returns the next data shred with a rooted slot cut to the buffer, and nothing once and for all when none is left; it terminates |
| ShredJoin.SeekData | contrib/blockstore/blockstore2shredcap.c:714-719 | seeking the data iterator skips no rooted shred |
| ShredJoin.NextRoot | contrib/blockstore/blockstore2shredcap.c:755-763 | moving to the next root leaves no shred of an earlier root behind |
| RwLock.StepCounts | src/flamenco/fd_rwlock.h:27-97 | every load, compare-and-swap, store and fetch-sub keeps the word equal to what is held |
| RwLock.LockIsSafe | src/flamenco/fd_rwlock.h:13-17 | in every interleaving of any number of threads the word is 0xFFFF exactly with one writer and no reader and otherwise the number of readers, at most 0xFFFE |
| RwLock.FreeLockWrites | src/flamenco/fd_rwlock.h:27-41 | with nobody holding the lock an undisturbed write attempt takes it, by write or trywrite |
| RwLock.OpenLockReads | src/flamenco/fd_rwlock.h:55-83 | with no writer and fewer than 65534 readers an undisturbed read attempt takes it |
| RwLock.HeldLockRefuses | src/flamenco/fd_rwlock.h:85-91 | trywrite on a held lock changes nothing |
| RwLock.GivesBack | src/flamenco/fd_rwlock.h:43-97 | unread gives back one read, unwrite the write, and demote turns the write into one read |
| HashVariants.HashGeneric | src/util/fd_hash.c:16-77 | the scalar loops compute the reference hash |
| HashVariants.HashLanes | src/util/fd_hash.c:79-150 | the four-lane loops compute the same hash |
| HashVariants.HashMemcpy | src/util/fd_hash.c:163-241 | the copying loops compute the same hash and leave dst equal to src, and bytes past it alone |
| HashVariants.StoreLoad8 | src/util/fd_hash.c:185-196 | storing a loaded word writes the bytes it was loaded from |
| HashVariants.StartV | src/util/fd_hash.c:92-92 | the vector start equals the four scalar starts |
| HashFacts.EmptyValue | src/util/fd_hash.c:16-77 | the hash of no bytes is the published XXH64 value |
| HashFacts.BytesValue | src/util/fd_hash.c:63-74 | so is the hash of three bytes |
| HashFacts.WordValue | src/util/fd_hash.c:51-61 | so is the hash of a word and a half word |
| HashFacts.StripeValue | src/util/fd_hash.c:25-47 | so is the hash of one stripe of 32 bytes |
| TsCodec.DecompressNearest | src/tango/fd_tango_base.h:407-412 | decompression returns the one timestamp with these low bits within half the 32-bit range of the reference |
| TsCodec.RoundTrip | src/tango/fd_tango_base.h:395-412 | decompression undoes compression if and only if the wrapped distance is in [-2^31, 2^31) |
| TsCodec.SeqOrder | src/tango/fd_tango_base.h:236-246 | in any window of 2^63 numbers, wrapped or not, comparison and difference are those of the counts |

## Left out

- Weak memory: every step is sequentially consistent; fences are not modelled.
- Groove new, join, leave, delete and verify, and the volume headers: magic, idx and info_sz are not modelled, volumes join and leave the pool as an atomic set.
- Groove alloc and free are not split into methods: they are steps of a transition system over values, because their correctness is about interleavings; object contents and headers of live allocations are not stored in that system.
- GrooveSafety.AlwaysSane: covers the tests on superblocks; the tests of an object's own header on free and of a volume's magic and idx are not in the step system.
- GrooveSafety.LatePopBreaks: runs completed operations on one stack, not the threads that do them, so it does not exhibit a run of the step system.
- GrooveSolo.SoloFinishes: is about a thread that runs alone; nothing is promised about how long one may lose races to others.
- GrooveBack.FreeAlone: is about a free that runs alone; under interference GrooveBack.FreeEnds says when it stops.
- GrooveSafety.NextInv: assumes each live allocation is freed at most once, as the source does, and fewer than 512 completed operations on a stack during one pop attempt.
- Vinyl reads are finished within their item; the completion loop, rd_active and partial reads are not modelled.
- VinylVersion.SameVersionSamePair: assumes fewer than 2^32 versions in between, as the source does; TRY and TEST, the requests that rely on it, are not modelled.
- Vinyl TRY and TEST requests, partition and padding blocks, compaction, sync and the parallel recovery are not modelled; the serial recovery is modelled without block hashes.
- Vinyl compression: a log block carries its decoded value together with the encoding and encoded size, which are arbitrary except that a raw encoding has the value's size.
- Vinyl data objects come from an allocator that always finds one at an address no object has that is live when it is asked: after the eviction for an uncached ACQUIRE and a FETCH, before it for a MOVE, and before the old object is freed when a pair changes its size class. The source halts if it finds none. Bytes behind a value after it was moved to a smaller object are zeros here and unspecified there.
- Vinyl eviction order is a sequence; the circular doubly linked list that holds it is not modelled, and an evicted line's stale slot number is cleared at once instead of being overwritten by the caller.
- Vinyl meta locks for concurrent readers are not modelled; the table size may be any number, not only a power of two.
- VinylOps.ReleaseOk: asks of the client what the source halts over or trusts it with (ClientOk); the value of a cancelled modify that is vouched for is trusted, not checked, in the source.
- VinylLog.RecoveryExact: the pair limit and header checks are modelled, the hash and alignment checks are not.
- Seccomp tokenizing, parsing and header text are not modelled; the syscall prototypes are a parameter, so the results hold for any table.
- SeccompPolicy.FilterCorrect: excludes a bare argument used as a condition, which the policy language gives no truth value; SeccompPolicy.FilterAnswers says what the filter does with one.
- Geo-IP reading, merging and sorting of records, and the file format, are not modelled; the sweep starts from sorted records.
- Shred join: RocksDB iterators are positions in sorted sequences, iterator errors are not modelled, and the code-shred half, which is switched off by its flags from the start, is left out.
- HashVariants.HashMemcpy: the source buffer is a value, as the restrict qualifiers forbid overlap; the vector form is four lanes of 64-bit words.
- HashFacts.StripeValue: four inputs pin the constants and the mixing; that the reference hash is XXH64 on every input is not provable without another definition of it.
- BAM tooling, command-line tools, clocks, and the remaining utilities of the repository are not modelled.
