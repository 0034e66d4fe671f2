/** What every reachable deadline satisfies: partitions are numbered without gaps and filled in
    order, every partition is valid, sectors are in one partition only, the two sector counters are
    exact, and partitions with recorded early terminations are marked. */
module DeadlineSpec {
  import opened Results
  import opened ExpirationQueue
  import opened Partitions
  import opened Deadlines
  import PI = PartitionInvariant

  type Parts = map<nat, Partition>

  ghost predicate Contiguous(parts: Parts) {
    forall n :: n in parts <==> 0 <= n < |parts|
  }

  ghost predicate AllValid(parts: Parts, infos: Infos) {
    forall n :: n in parts ==> PI.Valid(parts[n], infos)
  }

  ghost predicate OnePartition(parts: Parts) {
    forall m, n :: m in parts && n in parts && m != n ==> parts[m].sectors !! parts[n].sectors
  }

  /** All partitions but the last are full, and none is empty or overfull. */
  ghost predicate FilledInOrder(parts: Parts, size: nat) {
    && (forall n :: n in parts ==> 1 <= |parts[n].sectors| <= size)
    && (forall n :: n in parts && n + 1 in parts ==> |parts[n].sectors| == size)
  }

  ghost predicate Shape(parts: Parts, infos: Infos, size: nat) {
    Contiguous(parts) && AllValid(parts, infos) && OnePartition(parts) && FilledInOrder(parts, size)
  }

  ghost function SectorCount(parts: Parts, n: nat): nat
    requires forall k :: 0 <= k < n ==> k in parts
  {
    if n == 0 then 0 else SectorCount(parts, n - 1) + |parts[n - 1].sectors|
  }

  ghost function LiveCount(parts: Parts, n: nat): nat
    requires forall k :: 0 <= k < n ==> k in parts
  {
    if n == 0 then 0 else LiveCount(parts, n - 1) + |parts[n - 1].Live()|
  }

  /** Nothing but empty records. */
  ghost predicate NothingRecorded(p: Partition) {
    forall b :: b in p.earlyTerminations ==> p.earlyTerminations[b] == {}
  }

  ghost predicate Marked(parts: Parts, marks: set<nat>) {
    forall n :: n in parts && n !in marks ==> NothingRecorded(parts[n])
  }

  ghost predicate Valid(d: Deadline, infos: Infos, size: nat) {
    && size > 0
    && Shape(d.partitions, infos, size)
    && d.totalSectors == SectorCount(d.partitions, |d.partitions|)
    && d.liveSectors == LiveCount(d.partitions, |d.partitions|)
    && d.earlyTerminations <= d.partitions.Keys
    && Marked(d.partitions, d.earlyTerminations)
    && d.expirationsBlocks.Values <= d.partitions.Keys
  }

  ghost predicate FreshItems(parts: Parts, infos: Infos, items: seq<SectorInfo>) {
    && PI.Known(infos, items)
    && (forall i, j :: 0 <= i < j < |items| ==> items[i].number != items[j].number)
    && (forall i, n :: 0 <= i < |items| && n in parts ==> items[i].number !in parts[n].sectors)
  }

  /** Full up to idx, with idx the last partition or the next one to create. */
  ghost predicate FillPoint(parts: Parts, infos: Infos, size: nat, idx: nat) {
    Shape(parts, infos, size) && idx <= |parts| <= idx + 1
        && forall n :: n in parts && n < idx ==> |parts[n].sectors| == size
  }

  /** The deadline's partitions after p, which took the given items, is written at the fill point. */
  ghost predicate Grown(parts: Parts, infos: Infos, size: nat, idx: nat, p: Partition, items: seq<SectorInfo>)
    requires Contiguous(parts)
  {
    var parts' := parts[idx := p];
    && FillPoint(parts', infos, size, idx) && |parts'| == idx + 1
    && p.sectors == PartitionAt(parts, idx).sectors + Numbers(items)
    && p.earlyTerminations == PartitionAt(parts, idx).earlyTerminations
    && SectorCount(parts', |parts'|) == SectorCount(parts, |parts|) + |items|
    && LiveCount(parts', |parts'|) == LiveCount(parts, |parts|) + |items|
  }

  /** Old partitions keep their records and new ones have none. */
  ghost predicate RecordsKept(parts: Parts, parts': Parts) {
    && parts.Keys <= parts'.Keys
    && forall n :: n in parts' ==> parts'[n].earlyTerminations == PartitionAt(parts, n).earlyTerminations
  }

  ghost predicate UpdatesWithin(updates: seq<(nat, nat)>, parts: Parts) {
    forall i :: 0 <= i < |updates| ==> updates[i].1 in parts
  }

  /** The outcome of filling: no failure, the right shape, exactly the new sectors added. */
  ghost predicate FillsWell(parts: Parts, infos: Infos, size: nat, r: Result<Filled, Error>, added: nat)
    requires Contiguous(parts)
  {
    && r.Ok? && Shape(r.value.partitions, infos, size) && RecordsKept(parts, r.value.partitions)
    && SectorCount(r.value.partitions, |r.value.partitions|) == SectorCount(parts, |parts|) + added
    && LiveCount(r.value.partitions, |r.value.partitions|) == LiveCount(parts, |parts|) + added
    && UpdatesWithin(r.value.updates, r.value.partitions)
  }

  ghost predicate Gone(sectors: set<nat>, parts: Parts) {
    forall n :: n in parts ==> sectors !! parts[n].Live()
  }

  /** The effect of expiring the listed partitions one after the other, however often each is listed. */
  ghost predicate ExpiresWell(parts: Parts, infos: Infos, size: nat, marks: set<nat>, r: Expired)
    requires Contiguous(parts)
  {
    && Shape(r.partitions, infos, size) && r.partitions.Keys == parts.Keys && |r.partitions| == |parts|
    && ExpiresCounts(parts, r) && ExpiresMarks(parts, marks, r)
  }

  ghost predicate ExpiresCounts(parts: Parts, r: Expired)
    requires Contiguous(parts) && r.partitions.Keys == parts.Keys
  {
    && SectorCount(r.partitions, |parts|) == SectorCount(parts, |parts|)
    && LiveCount(r.partitions, |parts|) == LiveCount(parts, |parts|) - |r.popped.onTime| - |r.popped.early|
  }

  ghost predicate ExpiresMarks(parts: Parts, marks: set<nat>, r: Expired) {
    Gone(r.popped.All(), r.partitions) && r.marked <= parts.Keys && Marked(r.partitions, marks + r.marked)
  }

  ghost function Accumulate(e: Expired, n: nat, p: Partition, popped: ExpirationSet): Expired {
    Expired(e.partitions[n := p],
            e.marked + (if popped.early != {} then {n} else {}),
            ExpirationSet(e.popped.onTime + popped.onTime, e.popped.early + popped.early))
  }
}
