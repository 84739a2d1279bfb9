# Verification of the bot firewall's core

This project models the hard parts of a Go bot firewall in Dafny and proves what
they promise. The system decides for every request whether to allow, challenge or
deny it. Around that decision sit small concurrent protocols over a shared store
with expiring keys, and a few algorithms with strong invariants.

Check everything with `dafny verify dfyconfig.toml`.

## What is modelled

| files | component |
|---|---|
| `Options`, `TtlStore`, `StoreRuns`, `BlockCommits`, `ShardedMemory` | the atomic store operations, and the sharded in-memory store that refines them |
| `CounterCache`, `CounterCacheProtocol`, `CounterProgress`, `FlushReport`, `OverflowSketch` | write-behind counters: the critical sections as a class, all interleavings of requests, Forget, flush, drainers and store rounds as a step machine, and the overflow sketch |
| `Backoff`, `Scoreboard`, `AddressRecords`, `ScoreboardService`, `UnblockProtocol`, `AddressIsolation`, `Crossings` | automatic blocks, offense counting and operator unblocks, per call and over all interleavings |
| `Mirror`, `MirrorManager`, `MirrorProtocol`, `MirrorRoom`, `MirrorSweep`, `MirrorConvergence`, `MirrorResurrection`, `MirrorGap` | the in-process enforcement mirror that replaces store reads |
| `SpaceSaving`, `SelectorHeap`, `SegmentSelector` | the bounded heavy-hitter table with its indexed heap |
| `ChallengeRecord`, `StatefulRedemption`, `StatelessRedemption`, `TokenCache` | proof-of-work challenges: record codec and single spend |
| `Posture`, `PostureResponse` | the attack posture detector |
| `RangeSet` | the address range set |
| `SnapshotLifecycle`, `Pipeline`, `Shedding`, `PipelineVerdict` | the engine's hot-swapped snapshot, the decision pipeline and its overload path |

Objects the program mutates are classes whose methods are tied to specification
functions. Protocols are state machines in which every locked section and every
store round is one step; their theorems hold in every reachable state of every run.
Clocks, randomness, hashes, signatures and rule matching are parameters: a clock is
an integer that does not go back, generations and identifiers are new, hashes are
arbitrary functions. Where a piece of code reads its clock before it takes a lock,
the model lets the two times differ.

## What the proofs found

- The counter cache reads its clock before it takes the lock, so a key's sketch count is
  bounded by the chain of its increments that only another key's request breaks, when the
  time it carries has reached the chain's deadline (`NeverUnderCounts`). With readings in lock
  order that is the key's own live count (`OwnCountWhenOrdered`). Over any history some hashes
  tell the key less than its own count exactly when some set of keys, folded with it into one
  cell, does (`UnderCountsExactly`); for one late request of a new key that comes down to a
  condition on three times (`StaleReadExactly`), and `StaleReadUnderCounts` shows the sketch
  answering 2 to the fourth of a live window.
- The shutdown flush looks twice. For a key that no request or other flush touches between
  the looks its report is true (`FlushReportsTheTruth`). Its documentation asks for request
  traffic to have stopped, and that is needed: one request in between takes a parked count up
  again, and success is reported with nothing acknowledged (`RequestBetweenTheLooks`).
- An unblock is an exact boundary only within the 24 hours for which its generation is
  kept. `OvertakenBlock` gives the exact condition, `StalledWriterReblocks` a run.
- It is a boundary for a block's own read of the generation. An event that reached the limit
  before the unblock reads it again, and blocks the address once the hold is over
  (`LateCrossing`, with the run `CrossingOutlivesUnblock`).
- The mirror can be taken for complete while a live block is missing from it, in two ways. A
  reconcile reads its clock before it reads the drop generation, and a block can slip between
  the two: its address was removed since the first read, and its notification was dropped,
  because the store could not be read or the shard was full, before the second. Or a scan's
  upsert replaces the entry of a block that was written through after the scan by an older
  one that ends earlier. Every other live block is in the mirror or has its notification
  pending (`MirrorComplete`, address by address). From every state with a slip or such an
  upsert a missed block does follow, if the reconcile can still end complete: the scan is not
  cut off and there is room for what it saw (`SlippedIsMissed`, `ShortenedIsMissed`); without
  that room it never ends complete (`RoomIsNeeded`). Both are reachable
  (`DropBetweenTheReadsIsMissed`, `StaleUpsertIsMissed`).
- A removal takes the entry out and then leaves its tombstone. When the scan's upsert of the
  same address overlaps it, or when the tombstone is evicted before the scan has come to the
  address, the address comes back with nothing left to remove it but the next sweep
  (`OverlapResurrects`, `ForgottenResurrects`, with the run `InterruptedRemovalResurrects`);
  otherwise it never does (`NoResurrection`).
- The 30 second allowance of store-free challenges has to cover clock skew and the time a
  redemption takes between its freshness check and its spend. Between two replicas the
  challenge is otherwise spent twice, and on a single one too if the winner is slow to record
  its spend in the replica's own cache (`SkewAllowanceIsSharp`); once it is recorded there,
  that replica refuses the challenge however slow a redemption is (`CachedIsRefused`).
- With the store down, a challenge is spent twice in one process exactly when the local cache
  was full and emptied in between (`LocalSingleSpend`).
- The overload path passes a request that the pipeline denies in exactly two cases: a block
  in the store that no mirror shows, and a request that is exempt from proof of work, carries
  a valid token and has an anomaly score that denies it (`ShedPassIsAllow`). With a mirror
  attached and a parseable address only the second is left (`AttachedPassIsAllow`).

## Model

| member | source | states |
|---|---|---|
| `CounterCacheProtocol.EveryCountIsSomewhere` | core/store/countercache.go:193-235 | Conservation, in every reachable state of every interleaving: what requests were told was counted equals what is parked, queued, claimed in flight, acknowledged, expired and forgotten; expired only after the deadline, forgotten only after a later Forget |
| `CounterCacheProtocol.LiveCountsNeverLost` | core/store/countercache.go:597-685 | A live count of a key not forgotten since is acknowledged, claimed, queued or parked, whatever store rounds failed and whatever was evicted |
| `CounterCacheProtocol.SingleOwnership` | core/store/countercache.go:98-121 | A dirty key is queued once or held by one drainer and never both, no two drainers hold one key, at most 8 drainers; a dirty key parks nothing and a positive delta carries its entry's deadline |
| `CounterCacheProtocol.NothingStranded` | core/store/countercache.go:537-558 | A non-empty queue has a live drainer; without drainers nothing is dirty |
| `FlushReport.FlushReportsTheTruth` | core/store/countercache.go:246-310 | When Flush saw no drainer and later no unpushed key, every live count of every key that no request or other Flush touched in between has been acknowledged by the store, whatever else happened in between |
| `FlushReport.NothingParked` | core/store/countercache.go:291-310 | Without that condition: no unpushed key means that every live count is acknowledged, queued or claimed, and a running drainer has it |
| `FlushReport.RequestBetweenTheLooks` | core/store/countercache.go:237-310 | A run outside the documented use, with a Flush under way: one request between its two looks makes it report success with two counts and no acknowledgement |
| `CounterCacheProtocol.LateAnswerIsolated` | core/store/countercache.go:728-746 | A store answer for one window never changes a later window of the key |
| `CounterCacheProtocol.LocalCountMonotone` | core/store/countercache.go:218-228 | Within a window the local count never goes back over any event but a Forget, and a counted request raises it by exactly one and returns it |
| `CounterCacheProtocol.PushRespectsWindow` | core/store/pebble.go:718-749 | A push after its deadline writes nothing; one that lands never moves an existing expiry and creates records with the window's own deadline only |
| `CounterProgress.MergeAdopts` | core/store/countercache.go:728-746 | A store total that comes back for the entry's own live window leaves the local count at the higher of the two; any other answer changes nothing |
| `CounterProgress.AdoptedStays` | core/store/countercache.go:728-746 | Over any run in which the entry is neither forgotten nor evicted, the local count stays at or above every total the store answered for the window, and a counted request is told more than it |
| `CounterProgress.RequestCounts` | core/store/countercache.go:193-235 | A request in a live window is told one more than its count; otherwise it opens a window of its ttl, at least a second, from its clock reading and is told 1 |
| `CounterProgress.ShedOnlyWhenFull` | core/store/countercache.go:348-388 | A request goes to the sketch only from a full table that was swept within the last second or in which every entry has live unpushed work or an owner |
| `CounterProgress.CountedIsQueued` | core/store/countercache.go:479-512 | A counted request leaves its key with an owner, newly queued with one more drainer up to eight, unless the queue is full |
| `CounterProgress.OwnerClaims` | core/store/countercache.go:597-650 | The owner of a key deletes what was forgotten, claims the whole live delta, gives up an ended one and lets go of a key that owes nothing |
| `CounterProgress.TakesTheOldest` | core/store/countercache.go:545-555 | A drainer takes the key that has waited longest, or retires |
| `CounterProgress.PushLands` | core/store/countercache.go:728-739 | A push answered in time has added exactly its delta to the store's record of the key, touched no other, and carries the new total back |
| `CounterProgress.ForgetReaches` | core/store/countercache.go:400-411 | A forgotten key is gone locally, starts a new epoch and is owed a store delete, unless the queue is full |
| `CounterProgress.DeleteLands` | core/store/countercache.go:749-751 | A delete that succeeds takes that record from the store and no other |
| `CounterProgress.FlushQueuesAll` | core/store/countercache.go:246-272 | The shutdown flush leaves nothing parked: every live parked delta is queued whole, with drainers for as many keys as may have one |
| `CounterCacheProtocol.NextInv` | core/store/countercache.go:479-719 | Ownership, deadline agreement, claim validity and the balanced books survive every critical section and every outcome of every store round |
| `CounterCacheProtocol.RunInv` | core/store/countercache.go:479-719 | The invariant over whole runs |
| `CounterCache.CounterCache.IncrLocked` | core/store/countercache.go:193-235 | The locked section of Incr against its specification, with the clock read before the lock |
| `CounterCache.CounterCache.MarkDirtyLocked` | core/store/countercache.go:479-512 | Folding into an owned key, refusing at the queue cap, or queueing with a new drainer |
| `CounterCache.CounterCache.MakeCounterRoomLocked` | core/store/countercache.go:348-388 | The room sweep keeps exactly the entries with live unpushed work or an owner, at most once a second |
| `CounterCache.CounterCache.ForgetLocked` | core/store/countercache.go:400-411 | The locked section of Forget |
| `CounterCache.CounterCache.ReleaseLocked` | core/store/countercache.go:703-719 | Dropping an empty claim or queueing the key again |
| `CounterCache.CounterCache.NextLocked` | core/store/countercache.go:545-555 | Taking the head of the queue, or retiring the drainer |
| `CounterCache.CounterCache.FlushStepLocked` | core/store/countercache.go:597-650 | The locked section at the top of the flush loop: delete, release, discard an ended window or claim the delta |
| `CounterCache.CounterCache.PreserveFailedIncr` | core/store/countercache.go:659-685 | A failed round hands claimed and newly queued deltas back to the entry of their own window |
| `CounterCache.CounterCache.MergeLocked` | core/store/countercache.go:728-746 | The locked merge against its specification, whose effect `CounterProgress.MergeAdopts` gives |
| `CounterCache.CounterCache.PromoteLocked` | core/store/countercache.go:246-272 | The shutdown flush queues every parked key once, in some order, and starts the drainers it needs |
| `CounterCache.CounterCache.CountUnpushed` | core/store/countercache.go:291-310 | Counts the keys with live unpushed deltas; zero exactly when there is none |
| `OverflowSketch.NeverUnderCounts` | core/store/countercache.go:315-333 | For any hashes and any interleaving of keys the returned count is at least the length, saturating, of the key's chain of live increments, which only another key's increment with a time at or past its deadline breaks |
| `OverflowSketch.OwnCountWhenOrdered` | core/store/countercache.go:310-333 | With clock readings in lock order it is at least the key's own live count, other keys notwithstanding |
| `OverflowSketch.UnderCountsExactly` | core/store/countercache.go:315-333 | For every history: some hashes make the sketch tell a key less than its own count if and only if, for some set of keys, one cell shared by those keys and it ends below that count |
| `OverflowSketch.StaleReadExactly` | core/store/countercache.go:315-333 | In closed form for an unbroken chain, one late request of a new key and one of the key: this happens if and only if the key's window had at least two, still covers its request and had ended by the late request's time |
| `OverflowSketch.ZeroProbeMeansNoLiveCount` | core/store/countercache.go:456-467 | A zero read at any time means that the key's chain is empty or has ended by then |
| `OverflowSketch.ProbeIsLeast` | core/store/countercache.go:456-467 | The probe is the least count of the key's cells, and zero exactly when one of them has lapsed |
| `OverflowSketch.AloneIsExact` | core/store/countercache.go:315-346 | A key that shares its cells with no other is told exactly its own count, and read as it while that lives and as zero afterwards |
| `OverflowSketch.CellCoversChain` | core/store/countercache.go:315-333 | Each of a key's cells holds at least its chain and expires no earlier |
| `OverflowSketch.StaleReadUnderCounts` | core/store/countercache.go:315-333 | The sketch on two colliding keys: the fourth request of a live window is told 2, after another key's request with a later clock reading took the lock first |
| `OverflowSketch.Sketch.Incr` | core/store/countercache.go:315-346 | The in-place rows against the history they stand for, with the bound as postcondition |
| `OverflowSketch.Sketch.Count` | core/store/countercache.go:456-467 | The read-only probe against the history |
| `Backoff.BlockBackoffTTL` | core/store/store.go:257-283 | The loop computes min(base * 2^(k-1), cap) without overflow, after at most log2(cap/base) doublings even for a corrupt k |
| `Backoff.LadderClimbs` | core/store/store.go:257-283 | Every rung is positive, within the cap, never below an earlier one, and exactly twice the one before until the cap |
| `TtlStore.IncrKeepsWindow` | core/store/sharded_memory.go:300-330 | A late round neither creates nor extends a record; no round moves an existing expiry |
| `TtlStore.IncrCounts` | core/store/sharded_memory.go:300-330 | A round in time is applied to every counter, answers with the new total and touches no other key |
| `TtlStore.SwapsWhatWasExpected` | core/store/sharded_memory.go:332-365 | A create goes through exactly when the key is not live, a swap exactly when its value is; it writes that key alone, and nothing when refused |
| `TtlStore.DeletesWhatWasExpected` | core/store/sharded_memory.go:367-391 | A conditional delete goes through exactly when the key is live with the named value, and takes that key alone |
| `StoreRuns.CreatedOnceWhileItLasts` | core/store/sharded_memory.go:332-365 | Over any run of store operations and time, between two creates of a key that both go through the record has expired or was deleted |
| `ShardedMemory.ShardedMemory.GetLocked` | core/store/sharded_memory.go:196-235 | A lookup in the sharded maps is a lookup in the live store; an expired entry is dropped with its index entry |
| `ShardedMemory.ShardedMemory.Set` | core/store/sharded_memory.go:237-254 | A write to one shard or the central map is one write of the live store and keeps the block index complete |
| `ShardedMemory.ShardedMemory.Delete` | core/store/sharded_memory.go:256-269 | Removal from the map and from the block index together |
| `ShardedMemory.ShardedMemory.CompareAndSwap` | core/store/sharded_memory.go:332-365 | With no expected value it swaps exactly when the key is not live, otherwise exactly when that value is; the live store changes in that key alone, or not at all |
| `ShardedMemory.ShardedMemory.CompareAndDelete` | core/store/sharded_memory.go:367-391 | It deletes exactly when the named value is live; the live store loses that key alone, or nothing |
| `ShardedMemory.ShardedMemory.IncrByDeadline` | core/store/sharded_memory.go:284-330 | Increment of a window's counter, refining the atomic store operation; the index is kept except for an increment of a block key |
| `ShardedMemory.ShardedMemory.CommitBlock` | core/store/sharded_memory.go:393-442 | The conditional block commit over the sharded maps is the atomic commit: hold, generation and expected block compared in that order, then counter and block written |
| `ShardedMemory.ShardedMemory.CommitEvent` | core/store/sharded_memory.go:444-476 | The conditional event commit over the sharded maps is the atomic one |
| `ShardedMemory.ShardedMemory.CommitUnblock` | core/store/sharded_memory.go:478-500 | Hold, generation and removal of block and counter as one atomic change |
| `ShardedMemory.ShardedMemory.ScanActiveBlocks` | core/store/sharded_memory.go:541-570 | The index scan returns live blocks only, all of them when it reports complete |
| `ShardedMemory.ShardedMemory.TimePasses` | core/store/sharded_memory.go:45-60 | As the clock advances the live store loses exactly what expired, and the block index stays complete |
| `Scoreboard.EventKeysApart` | core/scoreboard.go:225-250 | Event keys under different generations without a colon never coincide, whatever the address, the event type and the bucket; nothing is said of two keys under one generation |
| `Scoreboard.GenKeyApart` | core/scoreboard.go:43-66 | A generation key is no block, counter, hold or event key |
| `Scoreboard.CountKeyApart` | core/scoreboard.go:43-66 | A block-count key is no block, generation, hold or event key |
| `Scoreboard.EventKeyInjective` | core/scoreboard.go:225-250 | For event types and generations without a colon, equal event keys mean equal event type, address, generation and bucket; addresses may hold colons |
| `Scoreboard.BlockAndHoldKeysApart` | core/scoreboard.go:43-66 | Block and hold keys are one per address and no other kind of key |
| `Scoreboard.BucketHoldsTime` | core/scoreboard.go:225-250 | The bucket of a time is the slice of the window's length that holds it |
| `AddressRecords.EventCountsOne` | core/store/sharded_memory.go:444-476 | An event counts exactly one in its own counter and answers with it, touches no other key, and counts nowhere under a hold |
| `AddressRecords.OthersUntouched` | core/scoreboard.go:43-66 | Whatever changes records of one address only leaves block, offense count, hold, generation and every event counter of every other address as they were |
| `AddressRecords.SameDecision` | core/scoreboard.go:253-282 | What an event decides depends on the records of its own address alone |
| `AddressIsolation.OneAddressAtATime` | core/scoreboard.go:233-408 | In every reachable state no event about one address changes a record of another |
| `UnblockProtocol.OvertakenBlock` | core/scoreboard.go:299-364 | Exactly when a block admitted before an unblock can still commit after it: no generation at admission, last rotation beyond the 24h retention, no live hold, block as read; otherwise nothing changes, offense count included |
| `UnblockProtocol.UnblockIsABoundary` | core/scoreboard.go:299-364 | Within the retention no automatic block or offense admitted before a committed unblock commits after it, over all interleavings and expiries |
| `UnblockProtocol.OvertakenScore` | core/scoreboard.go:233-282 | An event admitted before an unblock never changes a counter read under the new generation while that is retained |
| `Crossings.LateCrossing` | core/scoreboard.go:253-282 | Exactly when an event counted before an unblock still blocks after it, while the generation is retained: its block was admitted under the current generation, so after the last rotation, the hold is over and the block is as it was read; otherwise nothing changes |
| `Crossings.CrossingOutlivesUnblock` | core/scoreboard.go:253-295 | A reachable run in which it does |
| `UnblockProtocol.HoldStopsWriters` | core/store/sharded_memory.go:393-476 | While the hold is live nothing of the address commits |
| `UnblockProtocol.UnblockLifts` | core/scoreboard.go:383-408 | After an unblock the address is held, not blocked, under the new generation, its backoff counter reset or untouched as asked |
| `UnblockProtocol.OperatorWrites` | core/scoreboard.go:371-450 | Hold, generation, backoff reset, counter reset, administrator block and unblock write or remove exactly the one record they name |
| `UnblockProtocol.CommittedRung` | core/store/sharded_memory.go:402-441 | Over any run k is the number of blocks committed since the counter was last reset or expired, the TTL is its rung, and the counter keeps its first window |
| `UnblockProtocol.StalledWriterReblocks` | core/scoreboard.go:299-364 | A reachable run past the retention in which an overtaken writer does re-block: the bound is needed |
| `UnblockProtocol.NextInv` | core/store/sharded_memory.go:393-500 | Generation, offense-count and writer invariants survive every event |
| `ScoreboardService.Service.HoldUnblock` | core/scoreboard.go:148-162 | Hold and fresh generation are written, or nothing when the coordination is off |
| `ScoreboardService.Service.Block` | core/scoreboard.go:299-364 | A placed block is the atomic commit under the generation read first |
| `ScoreboardService.Service.RecordEvent` | core/scoreboard.go:253-295 | One counted event under the generation read first and, at the limit, the atomic commit of one block under the generation read after it; the store is exactly that, nothing changes under a hold, and no record of another address changes |
| `ScoreboardService.BlockOutcome` | core/store/sharded_memory.go:402-425 | Which comparison refuses a block: the hold, then the generation, then the expected block, and otherwise it commits |
| `ScoreboardService.BlockWritten` | core/store/sharded_memory.go:425-441 | A committed block is stored as given for its rung, its offense counted in a counter that keeps its first window, and nothing else changes |
| `ScoreboardService.BlockLasts` | core/scoreboard.go:299-364 | The first block lasts the given time or a minute, each further one twice the one before, none beyond the given limit or thirty days |
| `ScoreboardService.Service.CommitUnblock` | core/scoreboard.go:383-408 | The atomic unblock, or plain deletions when the coordination is off; the block is gone either way |
| `ScoreboardService.Service.ResetEventCounters` | core/scoreboard.go:427-446 | Exactly the three buckets of every usable window, sub-second ones included, are removed and counted |
| `ScoreboardService.ResetReaches` | core/scoreboard.go:427-446 | Whatever was counted less than a window away from the reset is reset |
| `ScoreboardService.ResetApart` | core/scoreboard.go:427-446 | No record of another address is |
| `Mirror.Mirror.Get` | core/enforce/mirror.go:70-79 | Found exactly when the entry is there and not expired |
| `Mirror.Mirror.Set` | core/enforce/mirror.go:85-102 | Insert or update; a full shard sheds expired entries first and otherwise refuses, counting the drop |
| `Mirror.Mirror.Remove` | core/enforce/mirror.go:104-122 | The entry goes, a tombstone comes, and past the cap the oldest tombstone makes room |
| `Mirror.Mirror.RemovedSince` | core/enforce/mirror.go:126-135 | Whether the address was removed at or after the scan began, pruning an older tombstone |
| `Mirror.Mirror.Reconcile` | core/enforce/mirror.go:156-180 | Run on its own: it reports complete exactly when it scanned everything and refused nothing, and then every scanned live address not removed since is there; after a full scan every entry left was scanned or is newer than it; what is left is from the scan or was there; a live entry goes only if a full scan did not see it and it predates the scan |
| `MirrorManager.Manager.MarkIncomplete` | core/enforce/manager.go:179-187 | The generation advances and completeness is cleared in one word |
| `MirrorManager.Manager.Publish` | core/enforce/manager.go:192-206 | Completeness is published only under an unchanged generation |
| `MirrorManager.Manager.Notify` | core/enforce/manager.go:210-262 | A removal takes the entry and leaves a tombstone; an addition is in the mirror exactly when its shard has or can make room, and otherwise has advanced the generation and cleared completeness |
| `MirrorManager.Manager.ReconcileOnce` | core/enforce/manager.go:352-400 | A failed scan changes nothing; otherwise the mirror is complete exactly when everything was scanned and nothing refused, holds every scanned live block then, and no stale entry after a full scan |
| `MirrorProtocol.MirrorComplete` | core/enforce/manager.go:167-206 | In every reachable state, for all interleavings of scans, drops, failed validations, commits, expiries and unblocks: while ReadThrough is false, every live block that the published reconcile did not lose and no upsert cut short since has an entry that lasts as long as it does, or its notification is pending |
| `MirrorProtocol.CoveredIsFound` | core/enforce/mirror.go:70-79 | Such an entry answers a lookup at every time at which the block is live |
| `MirrorRoom.InsertIsSetIn` | core/enforce/mirror.go:85-102 | The protocol's insert is the locked one: the address's shard sheds, takes or refuses exactly as `set` does, and the other shards are untouched |
| `MirrorRoom.MirrorBounded` | core/enforce/mirror.go:49-55 | In every reachable state no shard holds more than its share max(maxEntries / 32, 1) |
| `MirrorRoom.RoomIsNeeded` | core/enforce/mirror.go:156-180 | If the upserts of a reconcile, left alone, end complete, then in every shard the live entries and the scanned addresses not removed since were within its share together |
| `MirrorSweep.NoStaleEntryLeft` | core/enforce/mirror.go:156-180 | Over the protocol, for a full reconcile that is not interrupted: every entry left was scanned or is newer than the scan, and every live one that was is left |
| `MirrorProtocol.NextInv` | core/enforce/manager.go:225-276 | The invariant behind it survives every step of notifications and reconcile, whatever was lost before |
| `MirrorProtocol.RunInv` | core/enforce/manager.go:352-400 | The invariant over whole runs, without condition |
| `MirrorGap.SlippedIsMissed` | core/enforce/manager.go:352-400 | The other half for slips: from any state in which a block slipped between the clock read and the generation read, if the live blocks are within the scan's limit and fit their shards, the reconcile ends with the mirror taken for complete without it |
| `MirrorGap.ShortenedIsMissed` | core/enforce/mirror.go:156-180 | The other half for upserts: from any reachable state about to replace a newer block's entry by one that ends earlier, with completeness already published, or still to be published by this reconcile and room for the rest of it, that block is missed |
| `MirrorGap.MissedIsNotFound` | core/enforce/mirror.go:70-79 | A missed block is live at some time at which the mirror, alone, does not find it |
| `MirrorGap.DropBetweenTheReadsIsMissed` | core/enforce/manager.go:225-244 | A slip by a failed validation read is reachable, and so is a mirror taken for complete that is not |
| `MirrorGap.StaleUpsertIsMissed` | core/enforce/mirror.go:156-180 | A reachable run in which a scan's upsert replaces a newer entry by one that has lapsed, and the mirror is taken for complete |
| `MirrorGap.InterruptedRemovalResurrects` | core/enforce/mirror.go:104-122 | A reachable run in which an upsert between a removal's two halves brings an unblocked address back, with nothing pending |
| `MirrorGap.OverlapResurrects` | core/enforce/mirror.go:104-135 | From any reachable state in which the two halves of a removal and the upsert of the same address overlap, the address is back in the mirror with no removal pending, unless there is no room or another removal is |
| `MirrorGap.ForgottenResurrects` | core/enforce/mirror.go:104-135 | From any state in which a full removal log evicts the tombstone of an address that the upserts have yet to come to, the same follows |
| `MirrorConvergence.NotificationsConverge` | core/enforce/manager.go:225-262 | However commits, expiries and notifications interleave, once all are applied every live block is in the mirror with its last committed reason for its whole life, and the mirror holds no address that is not stored |
| `MirrorConvergence.NextConv` | core/enforce/manager.go:225-262 | An address differs from the store only while a notification about it is pending, kept by every step |
| `MirrorResurrection.NoResurrection` | core/enforce/mirror.go:149-180 | With reconciles as well, over every run in which no removal overlaps the upsert of the same address and no tombstone is evicted that the scan still needs: an address in the mirror is stored or its removal is pending |
| `MirrorResurrection.ReconciledMirror` | core/enforce/manager.go:352-400 | Then, once all notifications are applied and the mirror answers alone, it holds nothing that is not stored, and every live block that was not lost for its whole life |
| `SpaceSaving.StepSound` | core/anomaly/train.go:216-242 | Observing any segment keeps: estimates sum to the observations, every estimate is at least the true count, every untracked true count is at most each estimate of a full table |
| `SpaceSaving.HeavySelected` | core/anomaly/train.go:244-271 | Every segment with more than one in maxSegments of all observations is among the first maxSegments of the ranking, whatever the stream |
| `SpaceSaving.TrackedWhenHeavy` | core/anomaly/train.go:173-176 | Such a segment is tracked at every capacity of at least maxSegments, so at the constructor's max(1, 4 * maxSegments) |
| `SelectorHeap.RootLeast` | core/anomaly/train.go:191-197 | The heap root is the least counter |
| `SelectorHeap.UpStep` | core/anomaly/train.go:198-206 | Lifting a counter past its parent leaves a heap but for the lifted one |
| `SelectorHeap.DownStep` | core/anomaly/train.go:198-206 | Lowering a counter under its lesser child leaves a heap but for the lowered one |
| `SegmentSelector.RootIsVictim` | core/anomaly/train.go:235-236 | The root of a linked heap is the unique least estimate |
| `SegmentSelector.SelectorDomain.Fix` | core/anomaly/train.go:226-240 | Down, then up if nothing moved: a heap again, positions and map in agreement, estimates unchanged |
| `SegmentSelector.SelectorDomain.Count` | core/anomaly/train.go:223-241 | One observation: the table changes by the Space-Saving step with the heap root as victim, and heap, positions and guarantee are kept |
| `SegmentSelector.SelectorDomain.Selected` | core/anomaly/train.go:244-271 | At most maxSegments best-ranked segments, all of them when fewer, for every maxSegments; every heavy one among them when the capacity is at least maxSegments |
| `SegmentSelector.Selector.Observe` | core/anomaly/train.go:216-242 | A record counts its three segments under its host and touches no other host |
| `SpaceSaving.SegmentsOfARecord` | core/anomaly/train.go:154-165 | A record counts once each for its method on its route, its route and its method, three different segments; a missing method is GET |
| `ChallengeRecord.DecodeInvertsEncode` | core/pow/challenge_record.go:71-254 | Reading back what was written gives the record up to the fields its version carries, for every record that can be written |
| `ChallengeRecord.EncodeInvertsDecode1` | core/pow/challenge_record.go:171-215 | Every accepted version-1 byte string re-encodes to itself |
| `ChallengeRecord.EncodeInvertsDecode2` | core/pow/challenge_record.go:217-254 | An accepted version-2 byte string re-encodes to itself but for byte 8, so to itself exactly when byte 8 is 0 |
| `ChallengeRecord.DecodesExactlyEncodings1` | core/pow/challenge_record.go:171-215 | As version 1 the decoder accepts exactly what the encoder can write |
| `ChallengeRecord.LengthMismatchRejected` | core/pow/challenge_record.go:193-198 | The same fixed part with any other total length is rejected |
| `ChallengeRecord.SpendChangesOneByte` | core/pow/challenge_record.go:256-276 | Marking an issued record spent always encodes, differs from the stored bytes, decodes as spent, and changes no byte but the state (and byte 8) |
| `ChallengeRecord.EncodableExactly` | core/pow/challenge_record.go:71-162 | Exactly which records can be written: known state, a policy within the algorithm's bounds, fields and whole within their lengths |
| `ChallengeRecord.Layout1` | core/pow/challenge_record.go:71-117 | The version-1 layout by byte position |
| `ChallengeRecord.Layout2` | core/pow/challenge_record.go:119-162 | The version-2 layout by byte position |
| `ChallengeRecord.Buffer.Write` | core/pow/challenge_record.go:71-162 | The appending encoders write exactly the specified bytes, and nothing on an error |
| `StatefulRedemption.RedeemedAtMostOnce` | core/pow/challenge.go:670-775 | Each issued identifier yields at most one token or handover, for every interleaving of issuers and redeemers, lost replies included |
| `StatefulRedemption.SpentStaysSpent` | core/pow/challenge.go:738-752 | A spent record is never turned back into an issued one, over any run |
| `StatefulRedemption.LoserGetsNothing` | core/pow/challenge.go:745-752 | Whoever swaps against a spent record gets nothing and changes nothing |
| `StatefulRedemption.SpendSwaps` | core/pow/challenge.go:738-752 | A spend is the store's swap of the exact bytes read: it wins exactly when the store still finds them, and leaves a spent record and everything else as it was |
| `StatefulRedemption.FirstRedeemerWins` | core/pow/challenge.go:670-775 | An issued record that is still found is fetched, and spent by its redeemer if nobody swapped it in between |
| `StatefulRedemption.IssueCreates` | core/pow/challenge.go:520-533 | Issuing creates the record under a new identifier for its lifetime |
| `StatefulRedemption.NextInv` | core/pow/challenge.go:525-533 | The invariant survives issue, fetch and swap |
| `StatelessRedemption.RemainingIsExact` | core/pow/stateless_challenge.go:394-410 | For a fresh challenge the marker lifetime is the exact remainder plus the skew allowance, at least 30s; the fallback is unreachable |
| `StatelessRedemption.SpentAtMostOnce` | core/pow/stateless_challenge.go:335-446 | At most one redemption of an authenticated challenge succeeds over all replicas and interleavings, if clock difference plus handling time stays below 30s |
| `StatelessRedemption.SkewAllowanceIsSharp` | core/pow/stateless_challenge.go:335-446 | Whenever it does not, for two replicas or for one whose winner is slow to record, there is a run past the local cache of spent challenges that spends the challenge twice |
| `StatelessRedemption.CachedIsRefused` | core/pow/stateless_challenge.go:411-437 | Over any run, however slow: a replica whose own cache has the spend refuses every redemption that has yet to look |
| `StatelessRedemption.RecordedStays` | core/pow/tokencache.go:66-77 | A recorded spend stays recorded until a full cache is cleared |
| `StatelessRedemption.StillMarked` | core/pow/stateless_challenge.go:394-416 | The marker of a spent challenge is still there for every prompt redeemer |
| `StatelessRedemption.SpendCreates` | core/pow/stateless_challenge.go:411-437 | A spend is the store's create-only write of the marker: it wins exactly when the marker is not live, and leaves it for the exact remaining lifetime |
| `StatelessRedemption.WinnersWereFresh` | core/pow/stateless_challenge.go:335-360 | Over any run, whatever is spent was read within its lifetime, at most 30s before its issue, and was not issued more than the grace after its key retired |
| `TokenCache.LocalSingleSpend` | core/pow/tokencache.go:62-77 | After a successful local claim another one before its expiry goes through if and only if some claim in between was made on a full cache, over any run of claims of any keys |
| `TokenCache.HeldUntilCleared` | core/pow/tokencache.go:66-77 | The same from any cache that holds the key, by induction over the run |
| `TokenCache.TokenCache.Claim` | core/pow/tokencache.go:66-77 | Claims only what is not live |
| `TokenCache.TokenCache.Put` | core/pow/tokencache.go:49-60 | Trust ends at the earlier of token expiry and 15 minutes |
| `Posture.FallsOneStepAtATime` | core/attackmode/attackmode.go:560-583 | Over any run without pins the published level falls by at most one per evaluation and is never below the own level |
| `Posture.EnteredLevelDwells` | core/attackmode/attackmode.go:567-583 | Once any level is entered, up or down, the published level stays at or above it for MinDwell |
| `Posture.HalfLoadHolds` | core/attackmode/attackmode.go:629-660 | Load at or above half of a level's thresholds holds the level for as long as it lasts |
| `Posture.LeavingNeedsQuiet` | core/attackmode/attackmode.go:645-660 | A level is left only after its signals stayed below half for MinDwell |
| `PostureResponse.SignalsRaise` | core/attackmode/attackmode.go:543-583 | Over any run without pins, in thresholds and rates: past the attack thresholds Attack is published with its bits and flags, past the elevated ones at least Elevated, and a peer's vote at least that vote; and the level rises on nothing else |
| `PostureResponse.VotesAreOwn` | core/attackmode/attackmode.go:543-557 | The replica's own level follows its own signals alone |
| `PostureResponse.QuietFalls` | core/attackmode/attackmode.go:560-583 | A quiet dwell after the last stamp of a level takes the published level below it |
| `PostureResponse.QuietReturnsToNormal` | core/attackmode/attackmode.go:560-660 | Without signals and votes the posture is Normal two dwells after the last of them |
| `PostureResponse.PinOverrides` | core/attackmode/attackmode.go:515-530 | A pin in force overrides signals and peers both ways, a lapsed one does not, and a detector that is switched off publishes Normal |
| `PostureResponse.PublishedIsEffective` | core/attackmode/attackmode.go:667-699 | A level is published with its own bits and flags; the start time moves with the level and the reason is kept on a hold |
| `Posture.EntryIsAboveHalf` | core/attackmode/attackmode.go:598-643 | A signal that enters a level is also at half its threshold |
| `Posture.RaiseOnlyRaises` | core/attackmode/attackmode.go:733-741 | The raise never lowers the floor, never inverts the window and never lowers the ceiling, whatever the cap |
| `PostureResponse.RaiseTakesEffect` | core/attackmode/attackmode.go:733-741 | The window moves up by the whole raise unless the higher of cap and own ceiling stops it |
| `Posture.Detector.Evaluate` | core/attackmode/attackmode.go:503-596 | One evaluation with pins, switched-off detection, out-of-range peers and decay against its specification |
| `Posture.Detector.Publish` | core/attackmode/attackmode.go:667-699 | A new state only when something changed; the start time kept while the level is |
| `RangeSet.PrefixRange` | core/intel/ipset.go:27-39 | A number lies between the cleared and the filled end of a prefix exactly when it shares the prefix bits |
| `RangeSet.RangeOf` | core/intel/ipset.go:27-39 | The bit-setting loop yields the range of exactly the covered addresses, IPv4 in the mapped block |
| `RangeSet.LessIsNumeric` | core/intel/ipset.go:46-48 | The order of the bit sequences is the numeric one |
| `RangeSet.BytesInOrder` | core/intel/ipset.go:46-48 | The byte-wise comparison of two addresses is the comparison of their bits, and so the numeric one |
| `RangeSet.MergeInPlace` | core/intel/ipset.go:49-59 | In-place merging of sorted ranges leaves strictly ordered disjoint ranges with the same union |
| `RangeSet.NewRangeSet` | core/intel/ipset.go:41-60 | For every prefix list the set holds exactly the addresses some prefix covers, in disjoint ordered ranges |
| `RangeSet.RangeSet.Contains` | core/intel/ipset.go:63-69 | The binary search answers true exactly when some range holds the address |
| `SnapshotLifecycle.CountIsOwnersAndUsers` | core/engine.go:97-116 | Over all interleavings the count is engine ownership plus active users |
| `SnapshotLifecycle.NoUseAfterClose` | core/engine.go:109-116 | No evaluator holds a snapshot whose caches are closed or being closed |
| `SnapshotLifecycle.ClosedExactlyOnce` | core/engine.go:261-308 | Caches are closed at most once, and exactly once when the engine has let go and the last user is gone |
| `SnapshotLifecycle.FailedAcquireMeansMoved` | core/engine.go:310-320 | An acquire fails only on a snapshot the engine pointer has left |
| `SnapshotLifecycle.NeverCurrentAgain` | core/engine.go:280-294 | A snapshot that was left never becomes current again |
| `SnapshotLifecycle.ReloadTakesEffect` | core/engine.go:261-294 | After a reload whoever loads the pointer gets the new snapshot, and the old one is to be let go |
| `SnapshotLifecycle.AcquireSucceeds` | core/engine.go:97-116 | An evaluator that nobody interferes with acquires what it loaded while it is held, and gives back exactly one reference |
| `SnapshotLifecycle.RetiredIsReleased` | core/engine.go:302-320 | Retiring gives back the engine's reference, and closes a snapshot without users; a closed engine hands out nothing |
| `Pipeline.Evaluate` | core/engine.go:343-416 | The stage loop with fail-open errors and the refusal conversion against its specification |
| `Pipeline.MatchEnforcing` | core/waf/rules.go:128-141 | The first rule in order that matches, challenge rules skipped for an exempt request; none exactly when no rule applies |
| `Pipeline.ExemptionIsOrderFree` | core/pipeline.go:385-413 | However the exemption classifications were ordered, asking gives the same answer and keeps the memos right |
| `Pipeline.WafFromOracles` | core/pipeline.go:312-371 | The WAF stage depends on the oracles only, not on what was asked before it |
| `PipelineVerdict.PipelineIsFirstCause` | core/engine.go:343-416 | The stages with their memos and skipped errors decide by the first cause that holds of the oracles, with its reason |
| `PipelineVerdict.DeniedExactly` | core/engine.go:343-416 | Exactly who is denied; a token saves from the anomaly score and from challenge rules only |
| `PipelineVerdict.AllowNeedsProof` | core/pipeline.go:643-663 | With proof of work on, whoever is allowed is exempt, carries a valid token, is allowed by a rule, or comes to a domain that challenges on suspicion only |
| `PipelineVerdict.ChallengedForToken` | core/pipeline.go:643-663 | A request that nothing earlier decides, not exempt and without a valid token, is challenged with its token's reason, or refused when it cannot take a challenge |
| `PipelineVerdict.NeverChallenged` | core/pipeline.go:385-413 | Nobody is challenged without proof of work, when exempt or with a valid token; a refusal is a challenge for a client that cannot take one |
| `Shedding.ShedDenyIsDeny` | core/engine.go:993-1088 | What the overload path denies, Evaluate denies, despite the different order, with or without a mirror |
| `Shedding.ShedPassIsAllow` | core/engine.go:993-1088 | What it passes, no stage up to the WAF rules denies but for a stored block, and Evaluate allows it; it denies exactly when a stored block is not shown by any mirror, or the request is exempt, no WAF rule decided and the anomaly score denies |
| `Shedding.AttachedPassIsAllow` | core/engine.go:1036-1042 | With a mirror and a parseable address only the second case is left, and a request that is not exempt is always allowed |
| `PipelineVerdict.ShedExactly` | core/engine.go:993-1088 | Exactly who is denied, passed and turned away under overload |
| `PipelineVerdict.ShedReasons` | core/engine.go:993-1088 | And with which reason |

## Left out

- Redis scripts, BuntDB and Pebble: one abstract atomic store stands for them. It treats a record as live at its exact expiry tick, as the in-memory store does and Pebble does not; the challenge protocols leave that tick open.
- Store errors in the scoreboard and the sharded store, whose in-memory form never returns any; lost and failed store rounds are modelled in the counter cache, the mirror and stateful redemption.
- The janitor and the posture votes of the in-memory store, and its several clock readings within one operation: one reading serves each operation.
- ForgetSync of the counter cache, and its goroutine and context plumbing.
- FlushReport.FlushReportsTheTruth: for keys that no request and no other Flush touches between the two locked sections in which Flush looks, as its documentation asks of requests; `NothingParked` says what is left without that.
- MirrorProtocol.MirrorComplete: for automatic blocks of one process.
- MirrorGap.SlippedIsMissed: the room it asks for is what the uninterrupted reconcile needs; entries that lapse or are removed while it runs can make more.
- MirrorGap.ForgottenResurrects: for evictions while the reconcile is in its upserts.
- Blocks set by an administrator and blocks learned from a store read: neither is ownership-checked before it reaches the mirror. External sinks (nftables) and their queues.
- Machine integers: counts and times are unbounded, except where the width is part of the behaviour (the sketch's saturation, the backoff ladder, the record codec).
- ParseList, invalid prefixes and GeoIP lookups; strings compare by characters where Go compares bytes.
- HMAC, SHA-256, Argon2id and token signatures, the base64 and JSON wrapping of store-free challenges, and the key rotation around them: a challenge stands for one authenticated payload with its own spent marker.
- StatelessRedemption.SpentAtMostOnce: assumes a working store, and a challenge lifetime that is the same on every replica; the fail-open path of an outage is covered per process by `TokenCache.LocalSingleSpend` only.
- SegmentSelector.SelectorDomain.Selected: the ranking is computed by insertion where the program calls its library sort; segments are a strict total order, so the result is the same.
- RangeSet.NewRangeSet: the sort runs on a value, only the merge runs in place.
- Posture: pins are in the evaluation but not in the run theorems; window aggregation and vote sharing are inputs; return to Normal is for a replica that sees no votes; that of a whole fleet is not claimed, since peer votes refresh the stamps that local decay reads. Rates are exact reals.
- Pipeline: difficulty values, events and metrics of a decision, and the store writes they cause; the anomaly score is an oracle.
- Training aggregates, baseline scoring and drift comparison.
- HTTP transport, configuration, command line, metrics, dashboard, DNS lookups and feed fetching.
