# Polka Storage: a verified model of its sector, market and commitment logic

This project models three parts of the Polka Storage chain and proves what they promise.

**Sectors.** A storage provider's sectors live in partitions, partitions in deadlines. A partition
keeps sets of all, unproven, faulty, recovering and terminated sectors and a queue from blocks to the
sectors that expire there, on time or early. A proving clock closes one deadline after the other.

- `ExpirationQueue`, `Partitions`, `EarlyTerminations`, `Deadlines`, `Providers`: the operations as functions on values.
- `QueueMethods`, `PartitionMethods`, `DeadlineMethods`: the same operations as objects with loops that
  change fields, each method proved equal to its function.
- `PartitionInvariant`, `PartitionRun`, `DeadlineSpec`, `DeadlineInvariant`, `DeadlineExact`, `DeadlineErrors`,
  `Draining`, `ProviderRun`: what every operation keeps, exactly when it succeeds, what it reports otherwise, and what
  holds over whole runs.
- `PartitionEffects`, `DeadlineEffects`, `AddingEffects`, `PopOrder`, `CallEffects`: what each operation does, said of
  sets, queue places and index entries without reference to how it is computed.
- `ProvingClock`: windows, periods and mutability. `EndOfBlock`, `EndOfBlockMethods`: the end-of-block check of a
  provider, as a function and as an object with loops. `ProvingRun`: runs of calls and ends of blocks, in which a
  check can panic. `CallTimes`: when calls are accepted, in block numbers. `ClosingEffects`, `RunClosings`: what the
  check does to the deadline it closes. `FaultCauses`: why sectors are terminated early in such runs.
- `Assignment`, `AssignmentMeaning`: the order by which deadlines are chosen for new sectors, and what it compares.

**Market.** Clients and providers lock funds for deals; deals are published, activated, paid over time,
completed, terminated or expired.

- `Market`: the calls as functions on the storage; `MarketMethods`: the storage as an object with loops.
- `MarketLedger`, `MarketSpec`, `MarketParts`, `MarketInvariant`, `MarketLifecycle`, `MarketActivation`,
  `MarketSectors`, `MarketPublish`, `MarketErrors`, `MarketRun`: what each call does and reports, backing of every
  locked balance, agreement of the indexes, conservation of money, and the fate of every deal over whole runs.
- The `history` of the model is bookkeeping that the pallet does not have: it records for every deal what
  was paid, returned and burned, so that statements about whole runs can be made.

**Commitments.** The commitment of a sector is computed by a stack that merges equal pieces and pads on
demand; the sealer fills the rest of a sector with zero pieces.

- `PieceSize`, `Layout`: sizes, the aligned layout and the tree over it, defined without the stack.
- `Commd`, `Sealer`: the stack, the size check, the filler pieces and the loops that compute them.

`Limits`, `ListingLimits`, `ClosingLimits`, `SizeLimits` and `MarketLimits` hold properties that one would expect and
that fail: runs from the initial state, or sizes, for which they do. The exact conditions under which they hold are
stated there too or in the lemmas named below. `SmallRuns` builds the runs. `Arith` and `Results` are shared.

Conventions: an error result stands for the call being rolled back, as the runtime does with a failed
call; ordered maps and sets are iterated from the smallest key; numbers are unbounded, with the balance
limit of 128 bits, unsigned subtraction and division written out where the code depends on them. Hashes are opaque: the
piece hash is any function for which each zero-table entry joins two copies of the one below, and
proposal hashes are injective. The market's currency is ideal: what is moved into the market account stays there.

## Model

| member | source | states |
|---|---|---|
| `PartitionRun.RunValid` | pallets/storage-provider/src/partition.rs:96-518 | after every run of registering, adding, faulting, declaring recovered, proving, terminating, expiring and popping, the queue schedules exactly the live sectors, recoveries are faulty, faults are live, unproven sectors are healthy and live, and records of early terminations are disjoint and terminated |
| `PartitionInvariant.ExactlyOnce` | pallets/storage-provider/src/expiration_queue.rs:116-506 | a sector is live exactly when some queue entry holds it; then exactly one entry does, on one side of it, and a healthy sector sits on time under its own expiration |
| `PartitionInvariant.AddSectorsKeeps` | pallets/storage-provider/src/partition.rs:96-125 | adding succeeds exactly for distinct numbers new to the partition, adds them to the live ones and keeps the invariant |
| `PartitionInvariant.RecordFaultsKeeps` | pallets/storage-provider/src/partition.rs:132-230 | faults are recorded exactly when every declared sector known to the provider is in the partition, so the queue search cannot fail for live sectors; says which sectors become faulty, which recoveries are retracted and that no sector is lost |
| `PartitionInvariant.ForeignFaultRejected` | pallets/storage-provider/src/partition.rs:198-208 | declaring a known sector that is not in the partition faulty is always rejected |
| `PartitionInvariant.ProveKeeps` | pallets/storage-provider/src/partition.rs:271-295 | recovering declared recoveries and activating unproven sectors cannot fail; afterwards nothing is recovering or unproven, recovered sectors are healthy, and no queue entry is empty |
| `PartitionInvariant.TerminateKeeps` | pallets/storage-provider/src/partition.rs:302-376 | termination succeeds exactly for live sectors and takes exactly those off the live sectors, faults, recoveries, unproven sectors and the queue; all others stay |
| `PartitionInvariant.PopExpiredKeeps` | pallets/storage-provider/src/partition.rs:467-518 | expiry succeeds exactly when nothing is unproven or recovering (the already-terminated error cannot occur); what it pops was live and due, and what stays is not due unless faulty |
| `PartitionInvariant.RecordingLoses` | pallets/storage-provider/src/partition.rs:378-387 | recording early terminations loses none that are pending exactly when the block held none before |
| `PartitionEffects.DeclaringFaults` | pallets/storage-provider/src/partition.rs:132-193 | recording faults makes exactly the named live sectors faulty and takes the named ones off recoveries and unproven; a sector that becomes faulty is then early at the fault block and nowhere else if it was due later, and on time at its own expiration and nowhere else if not; no other sector moves in the queue |
| `PartitionEffects.ProvingProves` | pallets/storage-provider/src/partition.rs:271-295 | a proof takes exactly the recoveries off the faults, empties recoveries and unproven, and puts each recovered sector on time at its own expiration and nowhere else; no other sector moves in the queue |
| `PartitionEffects.TerminatingEnds` | pallets/storage-provider/src/partition.rs:302-376 | termination puts exactly the named sectors into the terminated ones and on record for the block, and takes them off every other set and every queue entry |
| `PartitionEffects.ExpiringPops` | pallets/storage-provider/src/partition.rs:467-518 | expiry pops exactly what the queue has up to the block, on time or early, terminates it, records the early part for the block and leaves the later entries as they were |
| `PartitionEffects.AddingAdds` | pallets/storage-provider/src/partition.rs:96-125 | adding puts exactly the given sectors into the partition, unproven and on time at their own expirations |
| `PartitionRun.ExpiryHasCause` | pallets/storage-provider/src/partition.rs:467-518 | over every run, a sector popped on time has reached its own expiration, and one popped early is faulty and was declared so for a block that has come and lies strictly before its expiration |
| `PartitionRun.EarlyHasCause` | pallets/storage-provider/src/expiration_queue.rs:133-163 | over every run, a sector sits early at a block only because a fault declaration named it for that block |
| `PartitionRun.FaultRecoverProve` | pallets/storage-provider/src/partition.rs:132-295 | for every valid partition, healthy set and fault block: fault, declare recovered, prove ends in the same state as proving at once |
| `QueueMethods.ExpirationQueue.AddActiveSectors` | pallets/storage-provider/src/expiration_queue.rs:116-125 | the loop puts every sector on time under its own expiration and changes nothing else |
| `QueueMethods.ExpirationQueue.FindSectorsByExpiration` | pallets/storage-provider/src/expiration_queue.rs:447-506 | the two search loops with early exit return, for each entry, exactly the wanted sectors that are on time there and in no entry searched before it; they fail exactly on a missing declared entry or a sector that is on time nowhere |
| `QueueMethods.ExpirationQueue.RescheduleAsFaults` | pallets/storage-provider/src/expiration_queue.rs:133-163 | sectors due after the fault block, and only those, move from their entries to early at that block; entries left empty disappear; on failure the queue is unchanged |
| `QueueMethods.ExpirationQueue.RescheduleRecovered` | pallets/storage-provider/src/expiration_queue.rs:170-237 | sectors first mentioned as early leave that entry and go back on time at their own expiration, empty entries disappear, and the call fails exactly when a sector is mentioned nowhere |
| `QueueMethods.ExpirationQueue.RemoveActiveSectors` | pallets/storage-provider/src/expiration_queue.rs:391-417 | the found groups are taken off their entries and returned together |
| `QueueMethods.ExpirationQueue.RemoveSectors` | pallets/storage-provider/src/expiration_queue.rs:243-311 | healthy sectors leave where they are on time, faulty ones wherever they are found, the result says which were on time and which early, and a sector found nowhere fails the call |
| `QueueMethods.ExpirationQueue.PopUntil` | pallets/storage-provider/src/expiration_queue.rs:315-353 | exactly the entries up to the block are removed, and their on-time and early sectors returned |
| `PartitionMethods.Partition.AddSectors` | pallets/storage-provider/src/partition.rs:96-125 | the loop with its duplicate check does to the fields what the partition function says, error included |
| `PartitionMethods.Partition.RecordFaults` | pallets/storage-provider/src/partition.rs:132-193 | new faults are those neither retracted, terminated nor faulty; fields and queue change as the partition function says |
| `PartitionMethods.Partition.RecoverAllDeclaredRecoveries` | pallets/storage-provider/src/partition.rs:271-295 | recoveries leave faults, are cleared and are rescheduled |
| `PartitionMethods.Partition.TerminateSectors` | pallets/storage-provider/src/partition.rs:302-376 | removed sectors leave faults, recoveries and unproven, join terminated and are recorded under the block |
| `PartitionMethods.Partition.PopExpiredSectors` | pallets/storage-provider/src/partition.rs:467-518 | the three checks in order, then all expired sectors become terminated and the early ones are recorded under the block |
| `PartitionMethods.Partition.PopEarlyTerminations` | pallets/storage-provider/src/partition.rs:393-460 | the loop over blocks with its partial last block returns and keeps exactly what the pop function says, and reports whether more is left |
| `EarlyTerminations.PopSplits` | pallets/storage-provider/src/partition.rs:393-460 | each block's sectors are split between what is taken and what is left, none lost and none in both |
| `EarlyTerminations.PopCounts` | pallets/storage-provider/src/partition.rs:403-444 | a pop counts what it takes, stays within its limit, and stops short of it only when nothing is left |
| `PopOrder.PopOldestFirst` | pallets/storage-provider/src/partition.rs:403-444 | nothing of a block is taken while an earlier block has sectors left, and within a block the lowest sectors are taken first |
| `DeadlineInvariant.AddKeeps` | pallets/storage-provider/src/deadline.rs:154-234 | adding sectors new to the deadline always succeeds, keeps partitions contiguous with all but the last full, every partition valid and both counters exact |
| `DeadlineInvariant.PartitionCount` | pallets/storage-provider/src/deadline.rs:154-234 | the number of partitions is the total number of sectors over the partition size, rounded up, and counters are ordered and not negative |
| `DeadlineInvariant.FaultsKeep` | pallets/storage-provider/src/deadline.rs:238-289 | recording faults over several partitions keeps the deadline invariant |
| `DeadlineInvariant.RecoveriesKeep` | pallets/storage-provider/src/deadline.rs:293-335 | declaring recoveries over several partitions keeps the deadline invariant |
| `DeadlineInvariant.ProvenKeeps` | pallets/storage-provider/src/deadline.rs:105-145 | recording proofs keeps the deadline invariant, and the sector lookup it relies on always finds the recovering sectors |
| `DeadlineInvariant.TerminateKeeps` | pallets/storage-provider/src/deadline.rs:343-367 | terminating sectors over several partitions keeps the deadline invariant, live counter included |
| `DeadlineInvariant.ExpiredKeeps` | pallets/storage-provider/src/deadline.rs:448-502 | expiry that succeeds keeps the deadline invariant and takes exactly the returned sectors off the live counter, without underflow, even when a partition is listed twice |
| `DeadlineInvariant.MissedKeeps` | pallets/storage-provider/src/lib.rs:1409-1430 | declaring every sector of an unproven partition faulty cannot fail and leaves exactly its live sectors faulty |
| `DeadlineExact.FaultsExact` | pallets/storage-provider/src/deadline.rs:238-289 | a fault request succeeds exactly when every named partition exists and holds the sectors named for it |
| `DeadlineExact.RecoveriesExact` | pallets/storage-provider/src/deadline.rs:293-335 | a recovery request succeeds exactly when the named sectors are faulty in the named partitions |
| `DeadlineExact.TerminateExact` | pallets/storage-provider/src/deadline.rs:343-367 | a termination request succeeds exactly when the named sectors are live in the named partitions |
| `DeadlineExact.ProvenExact` | pallets/storage-provider/src/deadline.rs:105-145 | a proof is accepted exactly for distinct existing partitions not proven in this window |
| `DeadlineExact.ExpiredExact` | pallets/storage-provider/src/deadline.rs:448-502 | expiry of a valid deadline succeeds exactly when no partition listed for a due block has unproven or recovering sectors |
| `DeadlineErrors.FaultsError` | pallets/storage-provider/src/deadline.rs:238-289 | a refused fault request reports what is wrong with the first partition, in order, for which it cannot be accepted: no such partition, an unknown sector, or a sector of another partition |
| `DeadlineErrors.RecoveriesError` | pallets/storage-provider/src/deadline.rs:293-335 | so does a refused recovery request, for a missing partition, an unknown sector or a sector that is not faulty |
| `DeadlineErrors.TerminateError` | pallets/storage-provider/src/deadline.rs:343-367 | so does a refused termination, for a missing partition or a sector that is not live |
| `DeadlineErrors.ProvenError` | pallets/storage-provider/src/deadline.rs:105-145 | a refused proof reports the first partition that does not exist, or is proven already or named a second time |
| `DeadlineErrors.ExpiredError` | pallets/storage-provider/src/deadline.rs:448-502 | a failed closing reports unproven or recovering sectors of the partition listed for the lowest due block that has any |
| `AddingEffects.AddEffect` | pallets/storage-provider/src/deadline.rs:154-234 | the i-th new sector goes to partition (total + i) / size, unproven and due at its own expiration; each expiration among them is a key of the block index and maps to the partition of the last sector with it; every other entry and sector stays, and both counters grow by the number of sectors |
| `DeadlineEffects.FaultsEffect` | pallets/storage-provider/src/deadline.rs:238-289 | after an accepted fault request each named partition has exactly the named live sectors added to its faults, the named ones off its recoveries, and those newly faulty in the one queue place that expiration and fault block demand; in the block index the fault block maps to the last partition named and each named partition has lost the first of its other entries; other partitions and entries are unchanged |
| `DeadlineEffects.MoveBlockRelists` | pallets/storage-provider/src/deadline.rs:270-285 | for one partition: the fault block maps to it, its lowest entry is gone unless that is the fault block, and every other entry is as before |
| `DeadlineEffects.RecoveriesEffect` | pallets/storage-provider/src/deadline.rs:293-335 | after an accepted recovery request each named partition has exactly the named sectors added to its recoveries, and nothing else has changed |
| `DeadlineEffects.ProvenEffect` | pallets/storage-provider/src/deadline.rs:105-145 | after an accepted proof each named partition is posted, its declared recoveries are no longer faulty and on time at their own expirations and nowhere early, and nothing in it is recovering or unproven; other partitions are unchanged |
| `DeadlineEffects.TerminationsEffect` | pallets/storage-provider/src/deadline.rs:343-367 | after an accepted termination exactly the named sectors are terminated and on record for the block in their partitions, and exactly the partitions that lost some are marked |
| `DeadlineEffects.ExpiryEffect` | pallets/storage-provider/src/deadline.rs:448-502 | closing pops exactly what the partitions listed for a due block have due, terminates it there, marks exactly those with early sectors, takes the due blocks off the index and the popped sectors off the live counter; partitions not listed are unchanged |
| `DeadlineMethods.Deadline.AddSectors` | pallets/storage-provider/src/deadline.rs:154-234 | the fill loop terminates and fills, creates and skips partitions as the fill function says; the block index is updated in order |
| `DeadlineMethods.Deadline.RecordFaults` | pallets/storage-provider/src/deadline.rs:238-289 | the loop over partitions in order, with its move of the partition's first block entry, does what the request function says, error included; what that is, sector by sector and entry by entry, is `DeadlineEffects.FaultsEffect` |
| `DeadlineMethods.Deadline.DeclareFaultsRecovered` | pallets/storage-provider/src/deadline.rs:293-335 | the loop over partitions in order does what the request function says, error included |
| `DeadlineMethods.Deadline.TerminateSectors` | pallets/storage-provider/src/deadline.rs:343-367 | the loop over partitions in order does what the request function says, error included |
| `DeadlineMethods.Deadline.RecordProven` | pallets/storage-provider/src/deadline.rs:105-145 | the loop over the submitted partitions does what the proof function says, error included; what that is, recoveries included, is `DeadlineEffects.ProvenEffect` |
| `DeadlineMethods.Deadline.PopExpiredPartitions` | pallets/storage-provider/src/deadline.rs:423-444 | the due blocks are removed and the partitions listed for them returned in block order, repetitions included |
| `DeadlineMethods.Deadline.PopExpiredSectors` | pallets/storage-provider/src/deadline.rs:448-502 | the loop over listed partitions expires each, marks those with early sectors and adjusts the live counter as the expiry function says |
| `DeadlineMethods.Deadline.PopEarlyTerminations` | pallets/storage-provider/src/deadline.rs:373-419 | the loop over marked partitions stops at the limits and unmarks the finished ones as the pop function says, which stops neither early nor late (`PopOrder.DeadlinePopStops`) |
| `DeadlineMethods.StorageProviderState.PopEarlyTerminations` | pallets/storage-provider/src/storage_provider.rs:333-371 | the loop over marked deadlines passes on what is left of the limits, stops at them and unmarks the finished deadlines as the pop function says, which stops neither early nor late (`PopOrder.ProviderPopStops`) |
| `PopOrder.DeadlinePopStops` | pallets/storage-provider/src/deadline.rs:373-419 | a pop with positive limits takes marked partitions in order, touching none while a lower one is still marked, counts exactly the partitions it touched, and leaves a mark only if the count of partitions or of sectors has reached its limit |
| `PopOrder.ProviderPopStops` | pallets/storage-provider/src/storage_provider.rs:333-371 | the same for a provider: deadlines in order, the partitions counted over all deadlines, and a mark left only if one of the two counts has reached its limit |
| `Draining.PopMovesItems` | pallets/storage-provider/src/storage_provider.rs:333-371 | a pop with positive limits succeeds within both limits, without underflow, and what it returns plus what stays is exactly what was recorded, over all partitions and deadlines |
| `Draining.PopMakesProgress` | pallets/storage-provider/src/storage_provider.rs:333-371 | while a deadline is marked, a pop with positive limits strictly reduces the outstanding work |
| `Draining.DrainConserves` | pallets/storage-provider/src/storage_provider.rs:333-371 | any series of pops returns each recorded pair of block and sector at most once and leaves exactly the others |
| `Draining.DrainCompletes` | pallets/storage-provider/src/storage_provider.rs:333-371 | enough pops, whatever their limits, return exactly everything recorded and leave no mark |
| `ProviderRun.RunKeeps` | pallets/storage-provider/src/storage_provider.rs:221-371 | after every run over a provider's deadlines each deadline is valid, no sector is in two deadlines, and every deadline with records is marked |
| `ProviderRun.RunCounts` | pallets/storage-provider/src/deadline.rs:154-234 | after every run each deadline's partitions are contiguous, all but the last full, their number is the rounded-up quotient, and both counters equal the sums over partitions |
| `ProviderRun.RunPopsOnce` | pallets/storage-provider/src/storage_provider.rs:333-371 | after every run no sector is on record twice, so that any series of pops returns each sector at most once and leaves exactly the others |
| `ProviderRun.RunDrains` | pallets/storage-provider/src/storage_provider.rs:333-371 | after every run, enough pops return exactly the early terminations on record |
| `CallEffects.AssignCall` | pallets/storage-provider/src/storage_provider.rs:221-298 | in a valid provider, sectors that are registered and in no deadline yet are assigned as adding does, and only the deadline named changes |
| `CallEffects.FaultsCall` | pallets/storage-provider/src/lib.rs:847-891 | a fault declaration is carried out exactly when each named partition of the deadline holds the sectors named for it; then only that deadline changes, as an accepted request does, and otherwise nothing |
| `CallEffects.RecoveriesCall` | pallets/storage-provider/src/lib.rs:908-975 | a recovery declaration is carried out exactly when the named sectors are faulty in the named partitions of the deadline; then only that deadline changes |
| `CallEffects.ProofCall` | pallets/storage-provider/src/lib.rs:677-815 | a proof is carried out exactly for distinct partitions of the deadline not proven in this window; then only that deadline changes |
| `CallEffects.TerminateCall` | pallets/storage-provider/src/lib.rs:986-1052 | a termination is carried out exactly when the named sectors are live in the named partitions of the deadline; then only that deadline changes, and it is marked |
| `ProvingClock.FirstStartInFuture` | pallets/storage-provider/src/storage_provider.rs:430-444 | the first period starts at the provider's offset in the global period after the current one: after the current block, at least a period in and less than two periods away |
| `ProvingClock.ClockClosedForm` | pallets/storage-provider/src/storage_provider.rs:108-147 | after every finalised block at or past the first start, the stepped clock is the quotient and remainder of the elapsed blocks |
| `ProvingClock.ClosesAtWindowEnd` | pallets/storage-provider/src/lib.rs:1342-1483 | a block closes a deadline exactly at the end of a window, and the deadline closed is the one whose window it was |
| `ProvingClock.ClosedOncePerPeriod` | pallets/storage-provider/src/lib.rs:1342-1483 | in every period each deadline is closed at exactly one block |
| `ProvingClock.MutableInPeriod` | pallets/storage-provider/src/deadline.rs:781-811 | inside a period a deadline is immutable exactly when it is the open one or the next one |
| `ProvingClock.TwoImmutable` | pallets/storage-provider/src/deadline.rs:781-811 | exactly two deadlines are immutable at every block of a period, and with three or more deadlines a mutable one exists |
| `ProvingClock.MutableAtPeriodEnd` | pallets/storage-provider/src/deadline.rs:781-811 | at the block where a period ends, before the clock steps, every deadline counts as mutable, the opening one included |
| `ProvingClock.MutableWhenClosing` | pallets/storage-provider/src/deadline.rs:781-811 | with three or more deadlines, a deadline counts as mutable at the block at which it closes |
| `ProvingClock.MutableDuringBlock` | pallets/storage-provider/src/deadline.rs:781-811 | over every run, the open deadline and the next one are immutable and all others mutable, except in the first block of each later period, when all are mutable |
| `ProvingClock.NextNotElapsedEarliest` | pallets/storage-provider/src/deadline.rs:737-762 | the answer is an occurrence that has not closed, and it is the earliest such exactly when the period is still running or this period's occurrence has closed |
| `ProvingClock.ClosesOnTime` | pallets/storage-provider/src/lib.rs:1342-1483 | a deadline is closed at its own closing block and never later |
| `CallTimes.TargetTimes` | pallets/storage-provider/src/deadline.rs:643-694 | the window a declaration is about opens at the period start plus whole windows, or as many periods later as the rule says; it closes a window later, the fault cutoff and the challenge lie their fixed times before the opening, and it has not closed |
| `CallTimes.AcceptsExactly` | pallets/storage-provider/src/deadline.rs:697-811 | in block numbers: faults and recoveries are accepted exactly while more than the cutoff is left until that opening, the fault block being the window's last block plus the age a fault may reach; terminations, and assignments once the period has started, exactly while more than a window is left; proofs exactly inside the window of the current deadline |
| `CallTimes.RunDeclares` | pallets/storage-provider/src/deadline.rs:719-762 | in every run an accepted fault or recovery declaration comes more than the cutoff before the opening of the window it is about: this period's until it has closed, then the next period's, and in the block before the clock steps to a new period the one after that |
| `EndOfBlock.CloseCurrentExact` | pallets/storage-provider/src/lib.rs:1403-1480 | declaring the sectors of partitions without a proof faulty and then expiring the current deadline succeeds exactly when no proven partition that is listed for a due block has unproven or recovering sectors; it keeps the provider invariant, forgets the proofs and touches no other deadline |
| `ClosingEffects.CloseCurrentEffect` | pallets/storage-provider/src/lib.rs:1403-1480 | closing the current deadline makes all live sectors of every partition without a proof faulty for the last block plus the age a fault may reach, leaves the others as they were, forgets the proofs, and then expires exactly what is due by the last block; the provider's mark is set exactly if something expired early |
| `EndOfBlockMethods.ProviderState.AdvanceDeadline` | pallets/storage-provider/src/storage_provider.rs:108-147 | expires the current deadline up to its last block and steps to the next, wrapping into the next period, or fails as expiry does; nothing happens before the period starts |
| `EndOfBlockMethods.ProviderState.MissProofs` | pallets/storage-provider/src/lib.rs:1409-1446 | the loop over partitions in order declares those without a proof faulty as the missed-proof function says |
| `EndOfBlockMethods.ProviderState.CheckDeadline` | pallets/storage-provider/src/lib.rs:1342-1483 | the whole check leaves sectors, deadlines, marks and clock as the end-of-block function says, and panics exactly when that function fails |
| `ProvingRun.RunClock` | pallets/storage-provider/src/storage_provider.rs:108-147 | in every run of calls and ends of blocks that has not panicked, the provider's clock is its closed form at the current block |
| `ProvingRun.RunPanicsExactly` | pallets/storage-provider/src/lib.rs:1471-1480 | in every run, finalising a block panics exactly when it closes a deadline in which a proven partition, listed for a block due by the deadline's last one, has unproven or recovering sectors |
| `RunClosings.RunCloses` | pallets/storage-provider/src/lib.rs:1342-1483 | in every run the end of a block does nothing but at the end of a window, where it closes the deadline of that window as above, for the block before it, and steps the clock |
| `ProvingRun.OpenShut` | pallets/storage-provider/src/deadline.rs:781-811 | while a deadline is open, no sector is assigned to it and no recovery is declared in it |
| `ProvingRun.PanicHasCause` | pallets/storage-provider/src/lib.rs:1471-1480 | a panic happens only at a deadline's closing block and only if, in that very block, a call assigned sectors to that deadline or declared recoveries in it |
| `ProvingRun.AssignPanics` | pallets/storage-provider/src/lib.rs:1471-1480 | in every run with three or more deadlines: if a block closes a deadline whose last partition is proven, listed for a due block and has room, then assigning any new sectors that fit to that deadline in that block is accepted and makes its end panic |
| `ProvingRun.RecoveryPanics` | pallets/storage-provider/src/lib.rs:1471-1480 | in every run: if a block closes a deadline and recoveries are accepted in it, one of them in a proven partition listed for a due block, then the end of that block panics |
| `FaultCauses.EarlyHasCause` | pallets/storage-provider/src/lib.rs:847-891 | in every run of calls and ends of blocks, a sector of a deadline is early at a block only because an accepted fault declaration named it for that block, or its partition missed a proof when the deadline closed; in both cases the block is the last one of an occurrence of the deadline plus the age a fault may reach |
| `FaultCauses.ClosingHasCause` | pallets/storage-provider/src/lib.rs:1403-1480 | in every run, a closing deadline terminates a sector early only for a block that has come and lies before the sector's expiration, and for which the run up to the end of this block holds such a declaration or missed proof |
| `FaultCauses.ClosingOnTime` | pallets/storage-provider/src/lib.rs:1403-1480 | in every run, a closing deadline terminates a sector on time only once it has expired |
| `Assignment.RankTotal` | pallets/storage-provider/src/deadline/assignment.rs:48-135 | the chain of comparisons by which deadlines are chosen for new sectors is a strict total order on deadlines with different indices, so that there is one least deadline |
| `Assignment.RankIsLexicographic` | pallets/storage-provider/src/deadline/assignment.rs:48-135 | that chain is the lexicographic comparison of partitions after compaction, partitions, full last partition, fill, live sectors and index |
| `AssignmentMeaning.DivCeilLeast` | pallets/storage-provider/src/deadline/assignment.rs:48-135 | the partitions compared are the least number that holds the sectors |
| `AssignmentMeaning.PartitionsAfterOne` | pallets/storage-provider/src/deadline/assignment.rs:48-135 | which, for one more sector, is the number of partitions the deadline has once the sector is in it |
| `AssignmentMeaning.FullExactly` | pallets/storage-provider/src/deadline/assignment.rs:48-135 | a deadline counts as full exactly when none of its partitions has room |
| `MarketRun.RunKeeps` | pallets/market/src/lib.rs:523-1529 | every run of deposits, withdrawals, publications, settlements, activations, terminations and ends of blocks keeps the whole market invariant |
| `MarketRun.RunBacked` | pallets/market/src/lib.rs:585-786 | in every reachable state each account has locked exactly the unpaid fees of its deals as client plus the collateral of its deals as provider |
| `MarketRun.RunConserves` | pallets/market/src/lib.rs:305-306 | in every reachable state the market account holds exactly the free and locked funds of all accounts, and issuance has fallen by exactly the collateral slashed |
| `MarketRun.RunPaysFees` | pallets/market/src/lib.rs:646-706 | for every deal that has left, paid plus returned is the whole fee, and the paid part depends only on the closing block, not on how settlements were split |
| `MarketRun.RunFair` | pallets/market/src/lib.rs:585-1638 | in every reachable state what an account owns, in its wallet and in the market, is what it started with, plus what its deals paid it as provider, less what it paid as client, less its collateral that was burned |
| `MarketRun.RunExpires` | pallets/market/src/lib.rs:1450-1529 | once a block has ended no deal starting by then is still only published: it was activated, or refunded and slashed in full at its start, never both |
| `MarketRun.RunFinal` | pallets/market/src/lib.rs:1450-1529 | continuing a run never changes what was paid, returned or slashed for a deal that has left |
| `MarketRun.StepCloses` | pallets/market/src/lib.rs:585-1529 | a deal that leaves the market in a call or at the end of a block is on record as closed at that very block |
| `MarketRun.StepWallets` | pallets/market/src/lib.rs:523-1529 | only deposits and withdrawals touch what accounts hold outside the market |
| `MarketRun.StaleForever` | pallets/market/src/lib.rs:1336-1347 | once a deal listed for a sector has left the market, terminating that sector, alone or with others, fails in every continuation of the run until the provider activates the sector anew |
| `MarketRun.AddBalanceKeeps` | pallets/market/src/lib.rs:523-542 | a deposit succeeds exactly when the wallet covers it, its overflow check cannot fail then, and it moves exactly the amount from the wallet to the free funds of that account and to the market account; nothing else changes |
| `MarketRun.WithdrawKeeps` | pallets/market/src/lib.rs:546-567 | a withdrawal succeeds exactly when free funds cover it and moves exactly the amount back to the wallet; nothing else changes |
| `MarketLedger.PaymentEffect` | pallets/market/src/lib.rs:1539-1564 | a payment succeeds exactly when the client has it locked, moves it to the provider's free funds and preserves the total, also between one account and itself |
| `MarketInvariant.SettleOneKeeps` | pallets/market/src/lib.rs:585-715 | settling never fails in a reachable state; exactly the active deals that have started are paid, up to now or their end |
| `MarketInvariant.SettleKeeps` | pallets/market/src/lib.rs:585-715 | settling any list of deals never fails; it removes exactly the named active deals that have ended, brings exactly the other started ones up to date, and reports on each name whether it was found, early, inactive or paid, with the amount due, nothing being paid twice when a deal is named twice |
| `MarketLifecycle.TerminateOneKeeps` | pallets/market/src/lib.rs:1343-1428 | terminating a listed deal fails exactly when it is gone or has not started; wrong provider and wrong state cannot occur, and no payment, slash or refund underflows |
| `MarketLifecycle.OnSectorsTerminateKeeps` | pallets/market/src/lib.rs:1324-1431 | terminating sectors succeeds exactly when every deal listed for them is in the market and has started; it removes the listings and all their deals that had not ended, and no other deal changes |
| `MarketLifecycle.OnFinalizeKeeps` | pallets/market/src/lib.rs:1450-1529 | the end of a block removes exactly the published deals that start at it, after which none starts by it, forgets the schedule of this block only, and keeps the invariant |
| `MarketActivation.ActivateSectorKeeps` | pallets/market/src/lib.rs:1208-1314 | a valid sector's deals become active and are listed together, and an invalid one changes nothing; no account is touched |
| `MarketActivation.SectorValidExact` | pallets/market/src/lib.rs:867-966 | in a reachable state a sector is valid exactly when its deals are different, each is a published deal of this provider that ends by the sector's expiry, and their piece sizes add up to at most the sector's size |
| `MarketActivation.SpaceIsSum` | pallets/market/src/lib.rs:867-966 | the space of a list of deals is the sum of their piece sizes, which is additive over any split of the list |
| `MarketSectors.ActivateEffect` | pallets/market/src/lib.rs:1208-1314 | a call takes, in order, exactly the sectors whose deals fit and share no deal with a sector taken before; exactly their deals become active, each in its sector from this block on; each sector taken is listed with the deals of its last entry taken, and nothing else but the pending index changes |
| `MarketActivation.AlwaysPending` | pallets/market/src/lib.rs:905-922 | for a published deal of a reachable state the pending and start-block checks of activation cannot fail |
| `MarketPublish.ValidateExact` | pallets/market/src/lib.rs:1036-1145 | validation accepts exactly the batches whose deals are signed, have a valid piece, are published by this provider, start from now on and before their end, last within the bounds, are new and distinct, fit the pending limit and can be afforded, and adds up exactly what has to be locked |
| `MarketPublish.SanityExact` | pallets/market/src/lib.rs:980-1030 | a deal passes its own checks exactly when it is signed, has a valid piece, is published by this provider, starts from now on and before its end, and lasts within the bounds |
| `MarketPublish.SanityErrors` | pallets/market/src/lib.rs:980-1030 | otherwise the first thing amiss, in that order, is reported |
| `MarketErrors.ValidateError` | pallets/market/src/lib.rs:1036-1145 | a refused batch reports what is wrong with the first deal that cannot be accepted after the ones before it: the deal itself, the client's funds, the provider's funds, a duplicate, or too many pending deals |
| `MarketErrors.PublishError` | pallets/market/src/lib.rs:723-786 | so does a refused publication, after the checks for an unregistered provider, an empty batch and another provider's deals |
| `MarketPublish.PublishKeeps` | pallets/market/src/lib.rs:723-786 | a batch is published exactly when it validates, its start blocks have room and the provider can lock its collateral on top of its fees to itself; says which error otherwise, and keeps the invariant |
| `MarketPublish.PublishEffect` | pallets/market/src/lib.rs:723-786 | a publication gives the deals the next identifiers in order, makes them pending, schedules each at its start block, locks exactly each client's fees and the provider's collateral, and changes nothing else |
| `MarketPublish.PublishLocksFunds` | pallets/market/src/lib.rs:723-786 | if no client is the provider, no step of locking funds fails once validation has passed |
| `MarketPublish.SelfDealsFail` | pallets/market/src/lib.rs:723-786 | a validated batch with room in its blocks fails to lock the collateral whenever the provider's fees to itself and its collateral exceed its free funds |
| `MarketLedger.LockEffect` | pallets/market/src/lib.rs:1593-1610 | locking succeeds exactly when free funds cover it, its overflow check included; it turns free funds of that account into locked ones and touches no other account nor the total |
| `MarketLedger.UnlockEffect` | pallets/market/src/lib.rs:1570-1587 | unlocking succeeds exactly when locked funds cover it, its overflow check included; it turns locked funds of that account into free ones and touches no other account nor the total |
| `MarketLedger.SlashEffect` | pallets/market/src/lib.rs:1615-1638 | slashing succeeds exactly when locked funds cover it; it takes them from that account only, and the market account and the issuance fall by as much, so the market account still holds the total |
| `MarketMethods.Pallet.SettlePayments` | pallets/market/src/lib.rs:585-715 | the loop over deals changes the storage and reports as the settlement function says |
| `MarketMethods.Pallet.ValidateBatch` | pallets/market/src/lib.rs:1036-1145 | the loop notes each deal as pending and adds up lockups as the validation function says, which accepts exactly what `MarketPublish.ValidateExact` says of the deals' fields |
| `MarketMethods.Pallet.PublishDeals` | pallets/market/src/lib.rs:723-786 | validation, the booking loop and the provider's lock together do what the publication function says |
| `MarketMethods.Pallet.ValidateSector` | pallets/market/src/lib.rs:867-966 | the two loops decide exactly whether the sector is valid, which `MarketActivation.SectorValidExact` says of the deals' fields and sizes |
| `MarketMethods.Pallet.ActivateSectors` | pallets/market/src/lib.rs:1208-1314 | the nested loops activate sector by sector as the activation function says |
| `MarketMethods.Pallet.TerminateSectors` | pallets/market/src/lib.rs:1324-1431 | the nested loops terminate listed deals as the termination function says, error included |
| `MarketMethods.Pallet.FinalizeBlock` | pallets/market/src/lib.rs:1450-1529 | the loop over the block's deals does what the end-of-block function says |
| `Commd.ReductionIsRoot` | primitives/src/commitment/commd.rs:97-184 | for every non-empty list of valid sizes, the reduction is the root over the layout that puts each piece in order at the first offset aligned to its size with zeros elsewhere, and its size is the least valid one holding sector and layout |
| `Commd.ReductionIsMerkle` | primitives/src/commitment/commd.rs:97-184 | if pieces and zero pieces commit to 128-byte chunks, the reduction is the plain Merkle root of the whole range of chunks |
| `Commd.StackDigits` | primitives/src/commitment/commd.rs:134-164 | a size is on the stack exactly when that bit of the aligned total is set |
| `Commd.ReductionSize` | primitives/src/commitment/commd.rs:38-62 | the result is the sector's size, or twice it when alignment pushes the layout over the end; the aligned end is below twice the sum and every table lookup is in range |
| `Commd.SizeCheckSuffices` | primitives/src/commitment/commd.rs:14-33 | for valid sizes the size check is exactly the comparison of the raw sum: too many pieces cannot occur |
| `Commd.CommDPieceReduction.AddPiece` | primitives/src/commitment/commd.rs:97-131 | the padding loop and the reduction leave the stack that the push function says |
| `Commd.CommDPieceReduction.Reduce` | primitives/src/commitment/commd.rs:134-164 | the merge loop terminates in the reduced stack |
| `Commd.CommDPieceReduction.Finish` | primitives/src/commitment/commd.rs:168-184 | the padding loop terminates in one piece, whose commitment is returned |
| `Commd.ComputeUnsealedSectorCommitment` | primitives/src/commitment/commd.rs:38-62 | no pieces give the sector's zero commitment, too large a sum fails, and otherwise the result is the root over the aligned layout |
| `Layout.ZeroDoubles` | primitives/src/commitment/zero.rs:9-12 | a table entry of twice the size is the join of two of them |
| `Layout.PlaceWellFormed` | primitives/src/commitment/commd.rs:97-131 | the aligned layout has every piece on its grid, in order and without overlap |
| `Layout.EndBound` | primitives/src/commitment/commd.rs:14-33 | alignment never doubles the space the pieces need |
| `Layout.RootIsMerkle` | primitives/src/commitment/commd.rs:216-227 | the root over a layout is the Merkle root of its chunks |
| `Sealer.ZeroPieceInvisible` | lib/polka-storage-proofs/src/porep/sealer.rs:352-387 | a zero piece placed on vacant aligned space changes no root |
| `Sealer.FillersKeepCommitment` | lib/polka-storage-proofs/src/porep/sealer.rs:352-387 | if the aligned pieces fit, appending the filler pieces fills the sector exactly and leaves the commitment unchanged |
| `Sealer.FillerPieces` | lib/polka-storage-proofs/src/porep/sealer.rs:352-387 | the bit-clearing loop returns one zero piece per set bit of the padded remaining space, lowest first, in unpadded sizes |
| `Sealer.FillsExactly` | lib/polka-storage-proofs/src/porep/sealer.rs:352-387 | fillers for the space beyond what is taken to be used fill the sector if that is the aligned end of the pieces, and overrun it if it is less |
| `Sealer.RawRestFills` | lib/polka-storage-proofs/src/porep/sealer.rs:345-387 | fillers for what the raw sizes leave, the documented argument, fill the sector exactly when no piece needed alignment |
| `Sealer.PadSector` | lib/polka-storage-proofs/src/porep/sealer.rs:117-129 | whatever whole number of unpadded blocks counts as occupied, the padded list is valid, starts with the pieces and has the size it should; if the occupied space is the aligned end it fills the sector and keeps the commitment, and if it is less it overruns the sector |
| `PieceSize.NewPaddedAccepts` | primitives/src/commitment/piece.rs:143-157 | a padded size is accepted exactly when it is a power of two of at least 128, and the node-size error cannot occur |
| `PieceSize.PaddingRoundTrip` | primitives/src/commitment/piece.rs:59-76 | padding and unpadding are mutual inverses between powers of two from 128 on and 127 times powers of two |
| `PieceSize.FromArbitrarySizeLeast` | primitives/src/commitment/piece.rs:174-178 | the size chosen is the smallest valid one whose unpadded capacity holds the data; too small inputs fail |
| `PieceSize.FromUnpaddedExact` | primitives/src/commitment/piece.rs:174-178 | the unpadded size of a valid padded size leads back to it |
| `Limits.ExpireRecords` | pallets/storage-provider/src/deadline.rs:448-485 | expiring a list of partitions leaves a listed one with its early sectors recorded if it is listed once and with an empty record if it is listed more often |
| `Limits.ExpiryKeepsTerminations` | pallets/storage-provider/src/deadline.rs:448-485 | closing a deadline keeps a listed partition's early terminations exactly when it is listed for one due block or has no early sector |
| `ListingLimits.DoublyListedForgets` | pallets/storage-provider/src/deadline.rs:448-485 | for any constants with two or more deadlines and room for two sectors in a partition: two sectors that are assigned together, are never proven, outlive the first fault block and fall due in the same period are terminated early by the end of that period's closing block, which marks their deadline and leaves no early termination on record |
| `ListingLimits.JoinsPicked` | pallets/storage-provider/src/deadline/assignment.rs:48-135 | in that run the deadline is the one the pallet assigns both sectors to |
| `ClosingLimits.ClosingPanics` | pallets/storage-provider/src/lib.rs:1471-1480 | for any constants with three or more deadlines and room for two sectors in a partition, any two sectors and whatever their expirations: if the first is assigned before the first period and proven in every period, then in the block at which its deadline closes and it is due the pallet assigns the second to the same deadline, and the end of that block panics |
| `ClosingLimits.ConfigurationsPanic` | runtime/src/configs/mod.rs:307-354 | so it is with the constants of the main runtime, of the test network and of the pallet's tests, for every expiration and so for those that pre-commit accepts |
| `SizeLimits.FitsExactly` | primitives/src/commitment/commd.rs:14-33 | a batch that passes the raw size check stays within the sector exactly when its aligned end does |
| `SizeLimits.RawSizesMislead` | primitives/src/commitment/commd.rs:14-33 | pieces of 128, 1024 and 128 bytes pass the check for 2 KiB and need a tree of 4 KiB |
| `SizeLimits.RawRestMisleads` | lib/polka-storage-proofs/src/porep/sealer.rs:345-387 | for pieces of 128 and 256 bytes in 2 KiB, fillers for what the raw sizes leave end at 3072 bytes |
| `MarketLimits.SelfDealFails` | pallets/market/src/lib.rs:723-786 | an account that starts with any amount, deposits it and publishes a deal with itself whose fee and collateral are each covered, but not together, passes validation and fails to lock |
| `MarketLimits.SelfDealExample` | pallets/market/src/lib.rs:723-786 | so does, concretely, a deal over 3 blocks at 2 each with a collateral of 6, for an account that deposited 10 |
| `MarketLimits.EarlyTerminationFails` | pallets/market/src/lib.rs:1671-1677 | the termination of a sector fails whenever one of its deals has not started |
| `MarketLimits.TerminationTimes` | pallets/market/src/lib.rs:1671-1677 | in the run that deposits, publishes and activates any acceptable deal and then ends any number of blocks, terminating the sector fails with an arithmetic error exactly before the deal's start block |
| `MarketLimits.SettledAwayFails` | pallets/market/src/lib.rs:1342-1347 | in such a run past the deal's end, once the deal is settled, terminating its sector fails with the not-found error, and keeps failing whatever calls follow until the sector is activated anew |
| `MarketLimits.DealableExample` | pallets/market/src/lib.rs:723-786 | concrete limits, deal, funds and sector with which the runs of the two rows above exist |

Where code and documentation differ, the model follows the code:

- A deadline's index from blocks to partitions keeps one partition per block and a partition may be
  listed for several blocks (pallets/storage-provider/src/deadline.rs:226-231, 270-285). Expiry visits such a partition once per
  block, and the second visit replaces the early terminations recorded by the first (`Limits.ExpiryKeepsTerminations`,
  `ListingLimits.DoublyListedForgets`).
- Mutability is documented as excluding the open deadline and the next one. In the first block of every later
  period the clock has not stepped yet and all deadlines count as mutable (`ProvingClock.MutableDuringBlock`).
- Locking funds is documented as always succeeding after validation. It can fail for deals of a provider with itself
  (`MarketPublish.PublishKeeps`).
- Elapsed blocks are documented as clamped at zero, but the subtraction comes first; termination before a deal's
  start is modelled as an arithmetic error (`MarketLifecycle.TerminateOneKeeps`, `MarketLimits.TerminationTimes`).
- A listed deal that was settled away is documented as harmless for termination; the code fails with a not-found error
  (`MarketLimits.SettledAwayFails`, `MarketRun.StaleForever`).
- At the end of a deadline no partition is supposed to have recovering sectors (pallets/storage-provider/src/partition.rs:485-488).
  In a deadline's closing block, before the check, the deadline counts as elapsed, and sectors and recoveries are accepted
  into partitions already proven, which the check skips. Expiry then fails and the check panics
  (`ProvingRun.RunPanicsExactly`, `ProvingRun.PanicHasCause`, `ProvingRun.AssignPanics`, `ProvingRun.RecoveryPanics`,
  `ClosingLimits.ClosingPanics`).
- The filler pieces are documented as filling what the raw piece lengths leave of a sector
  (lib/polka-storage-proofs/src/porep/sealer.rs:345-346). They do so only if no piece needs alignment (`Sealer.RawRestFills`).
- The size check of a sector's pieces compares raw sizes, without alignment (`SizeLimits.FitsExactly`).

## Left out

- The heap from which new sectors are assigned (pallets/storage-provider/src/deadline/assignment.rs:136-216) and its limit on partitions:
  runs add sectors to any deadline that accepts them, and the order decides only which one the pallet picks next.
- Finding every due sector through a deadline's block index: the index keeps only the last partition of a block.
- Early terminations processed inside the end-of-block check: what they write is overwritten by the local copy.
- Pre-commit deposits, sector activation, and the checks of expirations and of the time between pre-commit and
  prove-commit: runs register sectors with any expiration. The failing runs above do not depend on it.
- Capacity limits of bounded sets, maps and vectors, except the market's limits on pending deals and on deals per block.
- 128-bit overflow of price times duration, and 64-bit overflow of counters and deal identifiers.
- Existential deposit, keep-alive failures and dust of the real currency.
- Signatures, identifiers and encodings: whether a signature or an identifier is valid is an input.
- The commitment computed during activation: a failure there would roll the call back.
- Zero-knowledge proofs, sealing, and the concrete hash functions.
- The node, its servers, command-line tools and storage formats; the faucet and the randomness pallet.
- ProviderRun.RunKeeps: a deadline whose expiry fails stays as it was, so that these runs go on; the panic is the subject of `ProvingRun`.
- ProvingRun.RunPanicsExactly: one provider; with several, a panic for one of them stops the block for all.
- EndOfBlockMethods.ProviderState.CheckDeadline holds deadlines by value, like the deadline methods, and says nothing about the fields after a panic.
- DeadlineMethods.Deadline.RecordFaults, like the other deadline and provider methods, holds partitions and deadlines by value: aliasing between partition objects is not captured.
- PartitionMethods.Partition.AddSectors, like every method that can fail, says nothing about the fields after an error, because the caller discards them.
- MarketMethods.Pallet.Slash: burning and settling the imbalance is one step; a burn that succeeds followed by a settlement that fails is not distinguished.
