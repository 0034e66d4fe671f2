/** A deadline and its partitions (pallets/storage-provider/src/deadline.rs), as values.
    An error result stands for the whole call being discarded. */
module Deadlines {
  import opened Arith
  import opened Results
  import opened ExpirationQueue
  import opened Partitions
  import opened EarlyTerminations

  datatype Deadline = Deadline(
    partitions: map<nat, Partition>,
    expirationsBlocks: map<nat, nat>,
    posted: set<nat>,
    earlyTerminations: set<nat>,
    liveSectors: int,
    totalSectors: int)

  const FRESH_DEADLINE := Deadline(map[], map[], {}, {}, 0, 0)

  // ---------- adding sectors ----------

  /** The keys at or above idx, which bound how far the search for a partition with room can go. */
  function KeysFrom(partitions: map<nat, Partition>, idx: nat): set<nat> {
    set k | k in partitions && k >= idx
  }

  function PartitionAt(partitions: map<nat, Partition>, idx: nat): Partition {
    if idx in partitions then partitions[idx] else EMPTY_PARTITION
  }

  datatype Filled = Filled(partitions: map<nat, Partition>, updates: seq<(nat, nat)>)

  function Updates(items: seq<SectorInfo>, idx: nat): seq<(nat, nat)> {
    seq(|items|, i requires 0 <= i < |items| => (items[i].expiration, idx))
  }

  /** How many of the items a partition with room takes. */
  function Room(p: Partition, size: nat, items: seq<SectorInfo>): nat
    requires |p.sectors| < size
  {
    if size - |p.sectors| < |items| then size - |p.sectors| else |items|
  }

  /** What is filled after the first updates, unless that failed. */
  function Noted(updates: seq<(nat, nat)>, r: Result<Filled, Error>): Result<Filled, Error> {
    if r.Err? then r else Ok(r.value.(updates := updates + r.value.updates))
  }

  /** Fills the partition at idx up to the partition size and goes on to the next one while sectors are left. */
  function Fill(partitions: map<nat, Partition>, idx: nat, size: nat, items: seq<SectorInfo>): Result<Filled, Error>
    requires size > 0 && items != []
    decreases |items|, |KeysFrom(partitions, idx)|
  {
    var p := PartitionAt(partitions, idx);
    if |p.sectors| >= size then
      assert KeysFrom(partitions[idx := p], idx + 1) == KeysFrom(partitions, idx) - {idx};
      Fill(partitions[idx := p], idx + 1, size, items)
    else
      var n := Room(p, size, items);
      var r := Partitions.AddSectors(p, items[..n]);
      if r.Err? then Err(r.error)
      else if n == |items| then Ok(Filled(partitions[idx := r.value], Updates(items, idx)))
      else Noted(Updates(items[..n], idx), Fill(partitions[idx := r.value], idx, size, items[n..]))
  }

  /** A full partition is passed over; r is the whole fill. */
  lemma {:induction false} FillSkips(partitions: map<nat, Partition>, idx: nat, size: nat, items: seq<SectorInfo>,
                                     p: Partition,
                                     r: Result<Filled, Error>)
    requires size > 0 && items != [] && r == Fill(partitions, idx, size, items)
    requires p == PartitionAt(partitions, idx) && |p.sectors| >= size
    ensures r == Fill(partitions[idx := p], idx + 1, size, items)
    ensures |KeysFrom(partitions[idx := p], idx + 1)| < |KeysFrom(partitions, idx)|
  {
    assert KeysFrom(partitions[idx := p], idx + 1) == KeysFrom(partitions, idx) - {idx};
    assert idx in KeysFrom(partitions, idx) by { assert idx !in partitions ==> p == EMPTY_PARTITION; }
  }

  /** A partition with room takes its part of the items; r is the whole fill and more the fill of the others. */
  lemma {:induction false} FillTakes(partitions: map<nat, Partition>, idx: nat, size: nat, items: seq<SectorInfo>,
                                     p: Partition, n: nat,
                                     added: Result<Partition, Error>, r: Result<Filled, Error>)
      returns (more: Result<Filled, Error>)
    requires size > 0 && items != [] && r == Fill(partitions, idx, size, items)
    requires p == PartitionAt(partitions, idx) && |p.sectors| < size && n == Room(p, size, items)
    requires added == Partitions.AddSectors(p, items[..n])
    ensures added.Err? ==> r == Err(added.error)
    ensures added.Ok? && n == |items| ==> r == Ok(Filled(partitions[idx := added.value], Updates(items, idx)))
    ensures added.Ok? && n < |items| ==>
              && more == Fill(partitions[idx := added.value], idx, size, items[n..])
              && r == Noted(Updates(items[..n], idx), more)
  {
    more := if added.Ok? && n < |items| then Fill(partitions[idx := added.value], idx, size, items[n..]) else r;
  }

  /** Later entries for the same block replace earlier ones. */
  function Insert(blocks: map<nat, nat>, updates: seq<(nat, nat)>): map<nat, nat> {
    if updates == [] then blocks
    else Insert(blocks, updates[..|updates| - 1])[updates[|updates| - 1].0 := updates[|updates| - 1].1]
  }

  /** All partitions before the last one are full, so filling starts at the last one. */
  function LastIndex(partitions: map<nat, Partition>): nat {
    if |partitions| == 0 then 0 else |partitions| - 1
  }

  /** The deadline with n sectors filled in, unless that failed. */
  function AddFilled(d: Deadline, r: Result<Filled, Error>, n: nat): Result<Deadline, Error> {
    if r.Err? then Err(r.error)
    else Ok(d.(partitions := r.value.partitions,
               expirationsBlocks := Insert(d.expirationsBlocks, r.value.updates),
               liveSectors := d.liveSectors + n,
               totalSectors := d.totalSectors + n))
  }

  function AddSectors(d: Deadline, size: nat, items: seq<SectorInfo>): Result<Deadline, Error>
    requires size > 0
  {
    if items == [] then Ok(d) else AddFilled(d, Fill(d.partitions, LastIndex(d.partitions), size, items), |items|)
  }

  /** Items that fit into the partition at idx all go there. */
  lemma {:induction false} FillAll(partitions: map<nat, Partition>, idx: nat, size: nat, items: seq<SectorInfo>,
                                   p: Partition,
                                   p': Partition)
    requires items != [] && p == PartitionAt(partitions, idx) && |p.sectors| + |items| <= size
    requires Partitions.AddSectors(p, items) == Ok(p')
    ensures Fill(partitions, idx, size, items) == Ok(Filled(partitions[idx := p'], Updates(items, idx)))
  {
    assert items[..|items|] == items;
    var r := Fill(partitions, idx, size, items);
    var more := FillTakes(partitions, idx, size, items, p, |items|, Ok(p'), r);
  }

  lemma {:induction false} AddIs(d: Deadline, size: nat, items: seq<SectorInfo>, idx: nat, r: Result<Filled, Error>)
    requires size > 0 && items != [] && idx == LastIndex(d.partitions) && r == Fill(d.partitions, idx, size, items)
    ensures AddSectors(d, size, items) == AddFilled(d, r, |items|)
  {
  }

  // ---------- requests over several partitions, in order of partition number ----------

  type Request = map<nat, set<nat>>

  /** Moves the partition's first queue entry to the fault block. */
  function MoveBlock(blocks: map<nat, nat>, n: nat, block: nat): map<nat, nat> {
    var entries := set b | b in blocks && blocks[b] == n;
    if entries == {} then blocks[block := n] else (blocks - {Least(entries)})[block := n]
  }

  function RecordFaultsOne(d: Deadline, infos: Infos, n: nat, numbers: set<nat>, block: nat): Result<Deadline, Error> {
    if n !in d.partitions then Err(PartitionNotFound)
    else if !(numbers <= infos.Keys) then Err(DeclaredSectorsNotFound)
    else
      var r := Partitions.RecordFaults(d.partitions[n], infos, numbers, block);
      if r.Err? then Err(r.error)
      else Ok(d.(partitions := d.partitions[n := r.value.0],
                 expirationsBlocks := MoveBlock(d.expirationsBlocks, n, block)))
  }

  function RecordFaults(d: Deadline, infos: Infos, request: Request, todo: set<nat>, block: nat)
      : Result<Deadline, Error>
    requires todo <= request.Keys
    decreases todo
  {
    if todo == {} then Ok(d) else
    var n := Least(todo);
    var r := RecordFaultsOne(d, infos, n, request[n], block);
    if r.Err? then r else RecordFaults(r.value, infos, request, todo - {n}, block)
  }

  function DeclareRecoveredOne(d: Deadline, infos: Infos, n: nat, numbers: set<nat>): Result<Deadline, Error> {
    if n !in d.partitions then Err(PartitionNotFound)
    else if !(numbers <= infos.Keys) then Err(DeclaredSectorsNotFound)
    else if !(numbers <= d.partitions[n].faults) then Err(DeclaredSectorsNotFaulty)
    else Ok(d.(partitions := d.partitions[n := Partitions.DeclareFaultsRecovered(d.partitions[n], numbers)]))
  }

  function DeclareFaultsRecovered(d: Deadline, infos: Infos, request: Request, todo: set<nat>): Result<Deadline, Error>
    requires todo <= request.Keys
    decreases todo
  {
    if todo == {} then Ok(d) else
    var n := Least(todo);
    var r := DeclareRecoveredOne(d, infos, n, request[n]);
    if r.Err? then r else DeclareFaultsRecovered(r.value, infos, request, todo - {n})
  }

  function TerminateOne(d: Deadline, block: nat, infos: Infos, n: nat, numbers: set<nat>): Result<Deadline, Error> {
    if n !in d.partitions then Err(PartitionNotFound)
    else
      var r := Partitions.TerminateSectors(d.partitions[n], block, infos, numbers);
      if r.Err? then Err(r.error)
      else
        var d' := d.(partitions := d.partitions[n := r.value.0]);
        if r.value.1.IsEmpty() then Ok(d')
        else Ok(d'.(earlyTerminations := d.earlyTerminations + {n}, liveSectors := d.liveSectors - r.value.1.Len()))
  }

  function TerminateSectors(d: Deadline, block: nat, infos: Infos, request: Request, todo: set<nat>)
      : Result<Deadline, Error>
    requires todo <= request.Keys
    decreases todo
  {
    if todo == {} then Ok(d) else
    var n := Least(todo);
    var r := TerminateOne(d, block, infos, n, request[n]);
    if r.Err? then r else TerminateSectors(r.value, block, infos, request, todo - {n})
  }

  predicate RecoveriesKnown(d: Deadline, infos: Infos) {
    forall n :: n in d.partitions ==> d.partitions[n].recoveries <= infos.Keys
  }

  function RecordProvenOne(d: Deadline, infos: Infos, n: nat): Result<Deadline, Error>
    requires RecoveriesKnown(d, infos)
  {
    if n !in d.partitions then Err(PartitionNotFound)
    else if n in d.posted then Err(PartitionAlreadyProven)
    else
      var r := Partitions.Prove(d.partitions[n], infos);
      if r.Err? then Err(r.error)
      else Ok(d.(posted := d.posted + {n}, partitions := d.partitions[n := r.value]))
  }

  function RecordProven(d: Deadline, infos: Infos, numbers: seq<nat>): Result<Deadline, Error>
    requires RecoveriesKnown(d, infos)
    decreases |numbers|
  {
    if numbers == [] then Ok(d) else
    var r := RecordProvenOne(d, infos, numbers[0]);
    if r.Err? then r else RecordProven(r.value, infos, numbers[1..])
  }

  // ---------- missed proofs ----------

  /** All sectors of a partition that was not proven are declared faulty; an error is only logged. */
  function MissOne(d: Deadline, infos: Infos, n: nat, block: nat): Deadline
    requires n in d.partitions
  {
    if d.partitions[n].sectors == {} || n in d.posted then d
    else
      var r := Partitions.RecordFaults(d.partitions[n], infos, d.partitions[n].sectors, block);
      if r.Err? then d else d.(partitions := d.partitions[n := r.value.0])
  }

  lemma {:induction false} MissOneIs(d: Deadline, infos: Infos, n: nat, block: nat, p': Partition)
    requires n in d.partitions && d.partitions[n].sectors != {}
    requires var r := Partitions.RecordFaults(d.partitions[n], infos, d.partitions[n].sectors, block);
             r.Ok? && r.value.0 == p'
    ensures MissOne(d, infos, n, block) == if n in d.posted then d else d.(partitions := d.partitions[n := p'])
  {
  }

  // ---------- expiry ----------

  /** The partitions listed for the given blocks, in block order; a partition can be listed more than once. */
  function Listed(blocks: map<nat, nat>, due: set<nat>): seq<nat>
    requires due <= blocks.Keys
    decreases due
  {
    if due == {} then [] else [blocks[Least(due)]] + Listed(blocks, due - {Least(due)})
  }

  function DueBlocks(blocks: map<nat, nat>, until: nat): set<nat> {
    set b | b in blocks && b <= until
  }

  datatype Expired = Expired(partitions: map<nat, Partition>, marked: set<nat>, popped: ExpirationSet)

  function ExpireAll(partitions: map<nat, Partition>, numbers: seq<nat>, until: nat): Result<Expired, Error> {
    if numbers == [] then Ok(Expired(partitions, {}, EMPTY_SET)) else
    var before := ExpireAll(partitions, numbers[..|numbers| - 1], until);
    if before.Err? then before else
    var n := numbers[|numbers| - 1];
    if n !in before.value.partitions then Err(PartitionNotFound)
    else
      var r := Partitions.PopExpiredSectors(before.value.partitions[n], until);
      if r.Err? then Err(r.error)
      else
        var popped := r.value.1;
        Ok(Expired(before.value.partitions[n := r.value.0],
                   before.value.marked + (if popped.early != {} then {n} else {}),
                   ExpirationSet(before.value.popped.onTime + popped.onTime, before.value.popped.early + popped.early)))
  }

  /** The deadline once its due blocks have been dealt with, unless that failed. */
  function AfterExpiry(d: Deadline, due: set<nat>, r: Result<Expired, Error>)
      : Result<(Deadline, ExpirationSet), Error> {
    if r.Err? then Err(r.error)
    else
      var d' := d.(expirationsBlocks := d.expirationsBlocks - due,
                   partitions := r.value.partitions,
                   earlyTerminations := d.earlyTerminations + r.value.marked,
                   liveSectors := d.liveSectors - (|r.value.popped.onTime| + |r.value.popped.early|));
      Ok((d', r.value.popped))
  }

  /** Expiry by the partitions listed for the due blocks; e is what expiring them gives. */
  lemma {:induction false} ExpiryIs(d: Deadline, until: nat, due: set<nat>, numbers: seq<nat>,
                                    e: Result<Expired, Error>)
    requires due == DueBlocks(d.expirationsBlocks, until) && numbers == Listed(d.expirationsBlocks, due)
    requires e == ExpireAll(d.partitions, numbers, until)
    ensures PopExpiredSectors(d, until) == if numbers == [] then Ok((d, EMPTY_SET)) else AfterExpiry(d, due, e)
    ensures numbers == [] ==> d.expirationsBlocks - due == d.expirationsBlocks
  {
  }

  function PopExpiredSectors(d: Deadline, until: nat): Result<(Deadline, ExpirationSet), Error> {
    var due := DueBlocks(d.expirationsBlocks, until);
    if due == {} then Ok((d, EMPTY_SET))
    else AfterExpiry(d, due, ExpireAll(d.partitions, Listed(d.expirationsBlocks, due), until))
  }

  // ---------- popping early terminations ----------

  /** Sectors by termination block, with the work done to collect them. */
  datatype TerminationResult = TerminationResult(sectors: Terminations, partitionsProcessed: nat,
                                                 sectorsProcessed: nat) {
    predicate BelowLimit(maxPartitions: nat, maxSectors: nat) {
      partitionsProcessed < maxPartitions && sectorsProcessed < maxSectors
    }

    function Add(other: TerminationResult): TerminationResult {
      TerminationResult(Merge(sectors, other.sectors),
                        partitionsProcessed + other.partitionsProcessed,
                        sectorsProcessed + other.sectorsProcessed)
    }
  }

  function Merge(a: Terminations, b: Terminations): Terminations {
    map k | k in a.Keys + b.Keys :: SectorsAt(a, k) + SectorsAt(b, k)
  }

  const NO_TERMINATIONS := TerminationResult(map[], 0, 0)

  function PopPartition(p: Partition, max: nat): (Partition, TerminationResult, bool) {
    var r := Pop(p.earlyTerminations, max);
    (p.(earlyTerminations := r.rest), TerminationResult(r.taken, 1, r.count), r.rest != map[])
  }

  /** The deadline once partition n has been popped; a partition with nothing left is unmarked. */
  function AfterPop(d: Deadline, n: nat, max: nat): Deadline
    requires n in d.partitions
  {
    var (p, result, more) := PopPartition(d.partitions[n], max);
    d.(partitions := d.partitions[n := p],
       earlyTerminations := if more then d.earlyTerminations else d.earlyTerminations - {n})
  }

  /** One more partition popped, within what is left of the limit on sectors. */
  function PopOne(d: Deadline, n: nat, maxSectors: nat, so: TerminationResult): (r: (Deadline, TerminationResult))
    requires n in d.partitions && so.sectorsProcessed <= maxSectors
    ensures r.1.sectorsProcessed <= maxSectors
  {
    var max := maxSectors - so.sectorsProcessed;
    PopCounts(d.partitions[n].earlyTerminations, max);
    (AfterPop(d, n, max), so.Add(PopPartition(d.partitions[n], max).1))
  }

  /** Goes on with the partitions in todo, given what has been collected so far. */
  function PopMarked(d: Deadline, todo: set<nat>, maxPartitions: nat, maxSectors: nat, so: TerminationResult)
      : (Deadline, TerminationResult)
    requires so.sectorsProcessed <= maxSectors
    decreases todo
  {
    if todo == {} then (d, so) else
    var n := Least(todo);
    if n !in d.partitions then
      PopMarked(d.(earlyTerminations := d.earlyTerminations - {n}), todo - {n}, maxPartitions, maxSectors, so)
    else
      var next := PopOne(d, n, maxSectors, so);
      if !next.1.BelowLimit(maxPartitions, maxSectors) then next
      else PopMarked(next.0, todo - {n}, maxPartitions, maxSectors, next.1)
  }

  lemma {:induction false} PopOneIs(d: Deadline, n: nat, maxSectors: nat, so: TerminationResult, max: nat)
      returns (result: TerminationResult, d': Deadline, so': TerminationResult)
    requires n in d.partitions && so.sectorsProcessed <= maxSectors && max == maxSectors - so.sectorsProcessed
    ensures PopOne(d, n, maxSectors, so) == (d', so') && so'.sectorsProcessed <= maxSectors
    ensures d' == AfterPop(d, n, max)
    ensures result == PopPartition(d.partitions[n], max).1 && result.partitionsProcessed == 1 && so' == so.Add(result)
  {
    result := PopPartition(d.partitions[n], max).1;
    d', so' := AfterPop(d, n, max), so.Add(result);
  }

  lemma {:induction false} PopMarkedNext(d: Deadline, n: nat, todo: set<nat>, maxPartitions: nat, maxSectors: nat,
                                         so: TerminationResult,
                                         r: (Deadline, TerminationResult), next: (Deadline, TerminationResult))
    requires todo != {} && n == Least(todo) && n in d.partitions && so.sectorsProcessed <= maxSectors
    requires r == PopMarked(d, todo, maxPartitions, maxSectors, so) && next == PopOne(d, n, maxSectors, so)
    ensures next.1.sectorsProcessed <= maxSectors
    ensures next.1.BelowLimit(maxPartitions, maxSectors)
            ==> r == PopMarked(next.0, todo - {n}, maxPartitions, maxSectors, next.1)
    ensures !next.1.BelowLimit(maxPartitions, maxSectors) ==> r == next
  {
  }

  /** One round of the loop; r is what all rounds together give. */
  lemma {:induction false} PopMarkedUnfold(d: Deadline, n: nat, todo: set<nat>, maxPartitions: nat, maxSectors: nat,
                                           so: TerminationResult, r: (Deadline, TerminationResult), max: nat)
      returns (result: TerminationResult, d': Deadline, so': TerminationResult)
    requires todo != {} && n == Least(todo) && n in d.partitions && so.sectorsProcessed <= maxSectors
    requires r == PopMarked(d, todo, maxPartitions, maxSectors, so) && max == maxSectors - so.sectorsProcessed
    ensures d' == AfterPop(d, n, max)
    ensures result == PopPartition(d.partitions[n], max).1 && result.partitionsProcessed == 1 && so' == so.Add(result)
    ensures so'.sectorsProcessed <= maxSectors
    ensures so'.BelowLimit(maxPartitions, maxSectors) ==> r == PopMarked(d', todo - {n}, maxPartitions, maxSectors, so')
    ensures !so'.BelowLimit(maxPartitions, maxSectors) ==> r == (d', so')
  {
    result, d', so' := PopOneIs(d, n, maxSectors, so, max);
    PopMarkedNext(d, n, todo, maxPartitions, maxSectors, so, r, (d', so'));
  }

  function PopEarlyTerminations(d: Deadline, maxPartitions: nat, maxSectors: nat): (Deadline, TerminationResult, bool) {
    var r := PopMarked(d, d.earlyTerminations, maxPartitions, maxSectors, NO_TERMINATIONS);
    (r.0, r.1, r.0.earlyTerminations != {})
  }
}
