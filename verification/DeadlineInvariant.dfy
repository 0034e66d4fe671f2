/** Every operation of a deadline keeps it valid, and adding new sectors cannot fail. */
module DeadlineInvariant {
  import opened Results
  import opened ExpirationQueue
  import opened Partitions
  import opened EarlyTerminations
  import opened Deadlines
  import opened DeadlineSpec
  import PI = PartitionInvariant
  import opened Arith

  /** The number of partitions is the number of sectors over the partition size, rounded up. */
  lemma {:induction false} PartitionCount(d: Deadline, infos: Infos, size: nat)
    requires Valid(d, infos, size)
    ensures d.totalSectors >= d.liveSectors >= 0
    ensures |d.partitions| == (d.totalSectors + size - 1) / size
  {
    CountsOrdered(d.partitions, |d.partitions|);
    var count := PartitionsNeeded(d.partitions, infos, size, d.totalSectors);
  }

  lemma {:induction false} PartitionsNeeded(parts: Parts, infos: Infos, size: nat, total: int) returns (count: nat)
    requires size > 0 && Shape(parts, infos, size) && total == SectorCount(parts, |parts|)
    ensures count == |parts| && count == (total + size - 1) / size
  {
    var last := LastCount(parts, infos, size);
    count := |parts|;
    RoundedUp(count, last, size, total);
  }

  lemma {:induction false} LastCount(parts: Parts, infos: Infos, size: nat) returns (last: nat)
    requires Shape(parts, infos, size)
    ensures |parts| > 0 ==> 1 <= last <= size && SectorCount(parts, |parts|) == (|parts| - 1) * size + last
  {
    last := 0;
    if |parts| > 0 {
      forall k | 0 <= k < |parts| - 1 ensures k in parts && |parts[k].sectors| == size { assert k + 1 in parts; }
      FullCount(parts, size, |parts| - 1);
      assert |parts| - 1 in parts;
      last := |parts[|parts| - 1].sectors|;
    }
  }

  /** All but the last of n parts full, the last one with 1 to size elements. */
  lemma {:induction false} RoundedUp(n: nat, last: nat, size: nat, total: int)
    requires size > 0 && if n == 0 then total == 0 else 1 <= last <= size && total == (n - 1) * size + last
    ensures total >= 0 && (total + size - 1) / size == n
  {
    if n == 0 {
      DivBy(size - 1, 0, size, size - 1);
    } else {
      MulOrder(n, n - 1, size);
      MulOrder(0, n - 1, size);
      DivBy(total + size - 1, n, size, last - 1);
    }
  }

  lemma {:induction false} FullCount(parts: Parts, size: nat, n: nat)
    requires forall k :: 0 <= k < n ==> k in parts && |parts[k].sectors| == size
    ensures SectorCount(parts, n) == n * size
  {
    if n > 0 {
      FullCount(parts, size, n - 1);
      MulOrder(n, n - 1, size);
    }
  }

  lemma {:induction false} CountsOrdered(parts: Parts, n: nat)
    requires forall k :: 0 <= k < n ==> k in parts
    ensures LiveCount(parts, n) <= SectorCount(parts, n)
  {
    if n > 0 {
      CountsOrdered(parts, n - 1);
      Smaller(parts[n - 1].Live(), parts[n - 1].sectors);
    }
  }

  lemma {:induction false} Smaller(a: set<nat>, b: set<nat>)
    requires a <= b
    ensures |a| <= |b|
  {
    assert b == a + (b - a);
  }

  // ---------- replacing one partition ----------

  lemma {:induction false} CountsReplace(parts: Parts, m: nat, p: Partition, n: nat)
    requires m in parts && forall k :: 0 <= k < n ==> k in parts
    ensures SectorCount(parts[m := p], n)
            == SectorCount(parts, n) + (if m < n then |p.sectors| - |parts[m].sectors| else 0)
    ensures LiveCount(parts[m := p], n) == LiveCount(parts, n) + (if m < n then |p.Live()| - |parts[m].Live()| else 0)
  {
    if n > 0 { CountsReplace(parts, m, p, n - 1); }
  }

  lemma {:induction false} ReplaceValid(parts: Parts, infos: Infos, m: nat, p: Partition)
    requires AllValid(parts, infos) && PI.Valid(p, infos)
    ensures AllValid(parts[m := p], infos)
  {
  }

  /** A partition may be replaced by a valid one with the same sectors; only the live count moves. */
  lemma {:induction false} ReplaceKeeps(parts: Parts, infos: Infos, size: nat, m: nat, p: Partition)
    requires Shape(parts, infos, size) && m in parts && PI.Valid(p, infos) && p.sectors == parts[m].sectors
    ensures var parts' := parts[m := p];
            && Shape(parts', infos, size) && |parts'| == |parts|
            && SectorCount(parts', |parts|) == SectorCount(parts, |parts|)
            && LiveCount(parts', |parts|) == LiveCount(parts, |parts|) + |p.Live()| - |parts[m].Live()|
  {
    ReplaceValid(parts, infos, m, p);
    ReplaceLayout(parts, size, m, p);
    CountsReplace(parts, m, p, |parts|);
  }

  lemma {:induction false} ReplaceLayout(parts: Parts, size: nat, m: nat, p: Partition)
    requires Contiguous(parts) && OnePartition(parts) && FilledInOrder(parts, size)
    requires m in parts && p.sectors == parts[m].sectors
    ensures var parts' := parts[m := p];
            Contiguous(parts') && OnePartition(parts') && FilledInOrder(parts', size) && |parts'| == |parts|
  {
    var parts' := parts[m := p];
    assert parts'.Keys == parts.Keys;
    assert |parts'| == |parts'.Keys| == |parts|;
  }

  lemma {:induction false} ReplaceSameLive(d: Deadline, infos: Infos, size: nat, m: nat, p: Partition)
    requires Valid(d, infos, size) && m in d.partitions && PI.Valid(p, infos)
    requires p.sectors == d.partitions[m].sectors && p.Live() == d.partitions[m].Live()
    requires p.earlyTerminations == d.partitions[m].earlyTerminations
    ensures Valid(d.(partitions := d.partitions[m := p]), infos, size)
  {
    ReplaceKeeps(d.partitions, infos, size, m, p);
  }

  // ---------- adding ----------

  lemma {:induction false} DistinctNumbers(items: seq<SectorInfo>)
    requires forall i, j :: 0 <= i < j < |items| ==> items[i].number != items[j].number
    ensures |Numbers(items)| == |items|
  {
    if items != [] {
      var n := |items| - 1;
      DistinctNumbers(items[..n]);
      NumberNew(items[..n], items[n].number);
      NumbersSnoc(items[..n], items[n]);
      assert items == items[..n] + [items[n]];
    }
  }

  lemma {:induction false} NumberNew(items: seq<SectorInfo>, number: nat)
    requires forall k :: 0 <= k < |items| ==> items[k].number != number
    ensures number !in Numbers(items)
  {
    forall i | i in items ensures i.number != number {
      var k :| 0 <= k < |items| && items[k] == i;
    }
  }

  lemma {:induction false} NumbersSnoc(items: seq<SectorInfo>, x: SectorInfo)
    ensures Numbers(items + [x]) == Numbers(items) + {x.number}
  {
    assert forall i :: i in items + [x] <==> i in items || i == x;
  }

  lemma {:induction false} NumbersNew(p: Partition, items: seq<SectorInfo>)
    requires forall i :: 0 <= i < |items| ==> items[i].number !in p.sectors
    ensures Numbers(items) !! p.sectors
  {
    forall s | s in Numbers(items) ensures s !in p.sectors {
      var i :| i in items && i.number == s;
      var k :| 0 <= k < |items| && items[k] == i;
    }
  }

  lemma {:induction false} UnionSize(a: set<nat>, b: set<nat>)
    requires a !! b
    ensures |a + b| == |a| + |b|
  {
  }

  /** What a partition looks like after taking a batch of new sectors. */
  lemma {:induction false} BatchAdded(p: Partition, infos: Infos, items: seq<SectorInfo>)
    requires PI.Valid(p, infos) && PI.Known(infos, items)
    requires forall i, j :: 0 <= i < j < |items| ==> items[i].number != items[j].number
    requires forall i :: 0 <= i < |items| ==> items[i].number !in p.sectors
    ensures Partitions.AddSectors(p, items).Ok?
    ensures var p' := Partitions.AddSectors(p, items).value;
            && PI.Valid(p', infos) && p'.sectors == p.sectors + Numbers(items)
            && |p'.sectors| == |p.sectors| + |items| && |p'.Live()| == |p.Live()| + |items|
            && p'.earlyTerminations == p.earlyTerminations
  {
    PI.AddSectorsKeeps(p, infos, items);
    BatchSizes(p, items, Partitions.AddSectors(p, items).value);
  }

  lemma {:induction false} BatchSizes(p: Partition, items: seq<SectorInfo>, p': Partition)
    requires forall i, j :: 0 <= i < j < |items| ==> items[i].number != items[j].number
    requires forall i :: 0 <= i < |items| ==> items[i].number !in p.sectors
    requires p'.sectors == p.sectors + Numbers(items) && p'.Live() == p.Live() + Numbers(items)
    ensures |p'.sectors| == |p.sectors| + |items| && |p'.Live()| == |p.Live()| + |items|
  {
    DistinctNumbers(items);
    NumbersNew(p, items);
    UnionSize(p.sectors, Numbers(items));
    UnionSize(p.Live(), Numbers(items));
  }

  lemma {:induction false} FillStart(parts: Parts, infos: Infos, size: nat)
    requires Shape(parts, infos, size)
    ensures FillPoint(parts, infos, size, LastIndex(parts))
  {
    forall n | n in parts && n < |parts| - 1 ensures |parts[n].sectors| == size { assert n + 1 in parts; }
  }

  lemma {:induction false} EmptyValid(infos: Infos)
    ensures PI.Valid(EMPTY_PARTITION, infos)
  {
    assert forall s :: !PI.Scheduled(EMPTY_PARTITION.expirations, s);
  }

  /** Writing one filled partition keeps the shape. */
  lemma {:induction false} FillOne(parts: Parts, infos: Infos, size: nat, idx: nat, items: seq<SectorInfo>)
    requires FillPoint(parts, infos, size, idx) && FreshItems(parts, infos, items)
    requires 0 < |items| <= size - |PartitionAt(parts, idx).sectors|
    ensures Partitions.AddSectors(PartitionAt(parts, idx), items).Ok?
    ensures Grown(parts, infos, size, idx, Partitions.AddSectors(PartitionAt(parts, idx), items).value, items)
    ensures |Partitions.AddSectors(PartitionAt(parts, idx), items).value.sectors|
            == |PartitionAt(parts, idx).sectors| + |items|
  {
    var p := PartitionAt(parts, idx);
    EmptyValid(infos);
    BatchAdded(p, infos, items);
    FilledOne(parts, infos, size, idx, items, Partitions.AddSectors(p, items).value);
  }

  lemma {:induction false} FilledOne(parts: Parts, infos: Infos, size: nat, idx: nat, items: seq<SectorInfo>,
                                     p': Partition)
    requires FillPoint(parts, infos, size, idx) && FreshItems(parts, infos, items)
    requires 0 < |items| <= size - |PartitionAt(parts, idx).sectors| && PI.Valid(p', infos)
    requires var p := PartitionAt(parts, idx);
             && p'.sectors == p.sectors + Numbers(items) && p'.earlyTerminations == p.earlyTerminations
             && |p'.sectors| == |p.sectors| + |items| && |p'.Live()| == |p.Live()| + |items|
    ensures Grown(parts, infos, size, idx, p', items)
  {
    forall n | n in parts && n != idx ensures parts[n].sectors !! p'.sectors {
      NumbersElsewhere(parts, infos, items, n);
    }
    GrowPoint(parts, infos, size, idx, p');
    GrowCounts(parts, idx, p');
  }

  lemma {:induction false} GrowPoint(parts: Parts, infos: Infos, size: nat, idx: nat, p: Partition)
    requires FillPoint(parts, infos, size, idx) && PI.Valid(p, infos) && 1 <= |p.sectors| <= size
    requires forall n :: n in parts && n != idx ==> parts[n].sectors !! p.sectors
    ensures FillPoint(parts[idx := p], infos, size, idx) && |parts[idx := p]| == idx + 1
  {
    ReplaceValid(parts, infos, idx, p);
    GrowKeys(parts, idx, p);
    GrowDisjoint(parts, idx, p);
    GrowFilled(parts, size, idx, p);
  }

  lemma {:induction false} GrowKeys(parts: Parts, idx: nat, p: Partition)
    requires Contiguous(parts) && idx <= |parts| <= idx + 1
    ensures Contiguous(parts[idx := p]) && |parts[idx := p]| == idx + 1
  {
    var parts' := parts[idx := p];
    assert |parts'| == idx + 1 by {
      if idx in parts { assert parts'.Keys == parts.Keys; } else { assert parts'.Keys == parts.Keys + {idx}; }
      assert |parts'| == |parts'.Keys| && |parts| == |parts.Keys|;
    }
    forall n ensures n in parts' <==> 0 <= n < idx + 1 {
      assert n in parts' <==> n in parts || n == idx;
    }
  }

  lemma {:induction false} GrowDisjoint(parts: Parts, idx: nat, p: Partition)
    requires OnePartition(parts) && forall n :: n in parts && n != idx ==> parts[n].sectors !! p.sectors
    ensures OnePartition(parts[idx := p])
  {
  }

  lemma {:induction false} GrowFilled(parts: Parts, size: nat, idx: nat, p: Partition)
    requires Contiguous(parts) && FilledInOrder(parts, size) && 1 <= |p.sectors| <= size
    requires idx <= |parts| <= idx + 1 && forall n :: n in parts && n < idx ==> |parts[n].sectors| == size
    ensures FilledInOrder(parts[idx := p], size)
    ensures var parts' := parts[idx := p]; forall n :: n in parts' && n < idx ==> |parts'[n].sectors| == size
  {
  }

  lemma {:induction false} GrowCounts(parts: Parts, idx: nat, p: Partition)
    requires Contiguous(parts) && idx <= |parts| <= idx + 1 && Contiguous(parts[idx := p])
             && |parts[idx := p]| == idx + 1
    ensures SectorCount(parts[idx := p], idx + 1)
            == SectorCount(parts, |parts|) - |PartitionAt(parts, idx).sectors| + |p.sectors|
    ensures LiveCount(parts[idx := p], idx + 1)
            == LiveCount(parts, |parts|) - |PartitionAt(parts, idx).Live()| + |p.Live()|
  {
    CountsPrefix(parts, idx, p, idx);
  }

  lemma {:induction false} NumbersElsewhere(parts: Parts, infos: Infos, items: seq<SectorInfo>, n: nat)
    requires FreshItems(parts, infos, items) && n in parts
    ensures Numbers(items) !! parts[n].sectors
  {
    forall s | s in Numbers(items) ensures s !in parts[n].sectors {
      var i :| i in items && i.number == s;
      var k :| 0 <= k < |items| && items[k] == i;
      assert items[k].number !in parts[n].sectors;
    }
  }

  lemma {:induction false} CountsPrefix(parts: Parts, idx: nat, p: Partition, n: nat)
    requires n <= idx && forall k :: 0 <= k < n ==> k in parts
    ensures SectorCount(parts[idx := p], n) == SectorCount(parts, n)
    ensures LiveCount(parts[idx := p], n) == LiveCount(parts, n)
  {
    if n > 0 { CountsPrefix(parts, idx, p, n - 1); }
  }

  lemma {:induction false} FreshAfter(parts: Parts, infos: Infos, items: seq<SectorInfo>, n: nat, idx: nat,
                                      p: Partition)
    requires FreshItems(parts, infos, items) && n <= |items|
    requires p.sectors == PartitionAt(parts, idx).sectors + Numbers(items[..n])
    ensures FreshItems(parts, infos, items[..n]) && FreshItems(parts[idx := p], infos, items[n..])
  {
    var rest := items[n..];
    assert forall i :: i in rest ==> i in items;
    assert forall i :: i in items[..n] ==> i in items;
    var parts' := parts[idx := p];
    forall i, m | 0 <= i < |rest| && m in parts' ensures rest[i].number !in parts'[m].sectors {
      assert rest[i] == items[n + i];
      forall x | x in items[..n] ensures x.number != rest[i].number {
        var k :| 0 <= k < n && items[..n][k] == x;
        assert items[k].number != items[n + i].number;
      }
    }
  }

  /** Filling never fails on new sectors, ends in the right shape and adds exactly the new sectors. */
  lemma {:induction false} FillKeeps(parts: Parts, infos: Infos, size: nat, idx: nat, items: seq<SectorInfo>,
                                     r: Result<Filled, Error>)
    requires size > 0 && items != [] && FillPoint(parts, infos, size, idx) && FreshItems(parts, infos, items)
    requires r == Fill(parts, idx, size, items)
    ensures FillsWell(parts, infos, size, r, |items|)
  {
    if |PartitionAt(parts, idx).sectors| < size {
      FillRoom(parts, infos, size, idx, items, r);
    } else {
      FillNext(parts, infos, size, idx, items, r);
    }
  }

  lemma {:induction false} FillNext(parts: Parts, infos: Infos, size: nat, idx: nat, items: seq<SectorInfo>,
                                    r: Result<Filled, Error>)
    requires size > 0 && items != [] && FillPoint(parts, infos, size, idx) && FreshItems(parts, infos, items)
    requires |PartitionAt(parts, idx).sectors| >= size && r == Fill(parts, idx, size, items)
    ensures FillsWell(parts, infos, size, r, |items|)
  {
    FillFull(parts, infos, size, idx, items, r);
    FillRoom(parts, infos, size, idx + 1, items, r);
  }

  lemma {:induction false} FillFull(parts: Parts, infos: Infos, size: nat, idx: nat, items: seq<SectorInfo>,
                                    r: Result<Filled, Error>)
    requires size > 0 && items != [] && FillPoint(parts, infos, size, idx) && |PartitionAt(parts, idx).sectors| >= size
    requires r == Fill(parts, idx, size, items)
    ensures FillPoint(parts, infos, size, idx + 1) && PartitionAt(parts, idx + 1) == EMPTY_PARTITION
    ensures r == Fill(parts, idx + 1, size, items)
  {
    FullPartition(parts, infos, size, idx);
    FillSkips(parts, idx, size, items, PartitionAt(parts, idx), r);
  }

  lemma {:induction false} FillRoom(parts: Parts, infos: Infos, size: nat, idx: nat, items: seq<SectorInfo>,
                                    r: Result<Filled, Error>)
    requires size > 0 && items != [] && FillPoint(parts, infos, size, idx) && FreshItems(parts, infos, items)
    requires |PartitionAt(parts, idx).sectors| < size && r == Fill(parts, idx, size, items)
    ensures FillsWell(parts, infos, size, r, |items|)
    decreases |items|
  {
    var n := Room(PartitionAt(parts, idx), size, items);
    var p', more := FillFirst(parts, infos, size, idx, items, n, r);
    if n == |items| {
      FillLast(parts, infos, idx, p', size, items);
    } else {
      FillFull(parts[idx := p'], infos, size, idx, items[n..], more);
      FillRoom(parts[idx := p'], infos, size, idx + 1, items[n..], more);
      FillMore(parts, infos, idx, p', size, items, n, more.value);
    }
  }

  /** The partition at the fill point takes its part; what is left to do is a smaller fill. */
  lemma {:induction false} FillFirst(parts: Parts, infos: Infos, size: nat, idx: nat, items: seq<SectorInfo>, n: nat,
                                     r: Result<Filled, Error>)
      returns (p': Partition, more: Result<Filled, Error>)
    requires size > 0 && items != [] && FillPoint(parts, infos, size, idx) && FreshItems(parts, infos, items)
    requires |PartitionAt(parts, idx).sectors| < size && r == Fill(parts, idx, size, items)
    requires n == Room(PartitionAt(parts, idx), size, items)
    ensures 0 < n <= |items| && Grown(parts, infos, size, idx, p', items[..n])
    ensures Partitions.AddSectors(PartitionAt(parts, idx), items[..n]) == Ok(p')
    ensures n == |items| ==> items[..n] == items && r == Ok(Filled(parts[idx := p'], Updates(items, idx)))
    ensures n < |items| ==>
              && |p'.sectors| >= size && FreshItems(parts[idx := p'], infos, items[n..])
              && more == Fill(parts[idx := p'], idx, size, items[n..])
              && r == Noted(Updates(items[..n], idx), more)
  {
    var p := PartitionAt(parts, idx);
    p' := FillPart(parts, infos, size, idx, items, n);
    more := FillTakes(parts, idx, size, items, p, n, Ok(p'), r);
    if n < |items| { FreshAfter(parts, infos, items, n, idx, p'); }
  }

  lemma {:induction false} FillPart(parts: Parts, infos: Infos, size: nat, idx: nat, items: seq<SectorInfo>, n: nat)
      returns (p': Partition)
    requires FillPoint(parts, infos, size, idx) && FreshItems(parts, infos, items)
    requires 0 < n <= |items| && n <= size - |PartitionAt(parts, idx).sectors|
    ensures Partitions.AddSectors(PartitionAt(parts, idx), items[..n]) == Ok(p')
            && Grown(parts, infos, size, idx, p', items[..n])
    ensures |p'.sectors| == |PartitionAt(parts, idx).sectors| + n
  {
    FreshPrefix(parts, infos, items, n);
    FillOne(parts, infos, size, idx, items[..n]);
    p' := Partitions.AddSectors(PartitionAt(parts, idx), items[..n]).value;
  }

  lemma {:induction false} FillLast(parts: Parts, infos: Infos, idx: nat, p: Partition, size: nat,
                                    items: seq<SectorInfo>)
    requires Contiguous(parts) && Grown(parts, infos, size, idx, p, items)
    ensures FillsWell(parts, infos, size, Ok(Filled(parts[idx := p], Updates(items, idx))), |items|)
  {
    var r := Filled(parts[idx := p], Updates(items, idx));
    MoreRecords(parts, idx, p, r);
    UpdatesJoin(items, idx, [], r.partitions);
    assert Shape(r.partitions, infos, size);
  }

  lemma {:induction false} FullPartition(parts: Parts, infos: Infos, size: nat, idx: nat)
    requires size > 0 && FillPoint(parts, infos, size, idx) && |PartitionAt(parts, idx).sectors| >= size
    ensures idx in parts && idx + 1 !in parts && parts[idx := PartitionAt(parts, idx)] == parts
    ensures FillPoint(parts, infos, size, idx + 1)
  {
    assert |parts[idx].sectors| == size;
  }

  lemma {:induction false} FreshPrefix(parts: Parts, infos: Infos, items: seq<SectorInfo>, n: nat)
    requires FreshItems(parts, infos, items) && n <= |items|
    ensures FreshItems(parts, infos, items[..n])
  {
    assert forall i :: i in items[..n] ==> i in items;
  }

  lemma {:induction false} FillMore(parts: Parts, infos: Infos, idx: nat, p: Partition, size: nat,
                                    items: seq<SectorInfo>, n: nat,
                                    r: Filled)
    requires 0 < n < |items| && Contiguous(parts) && Grown(parts, infos, size, idx, p, items[..n])
    requires FillsWell(parts[idx := p], infos, size, Ok(r), |items| - n)
    ensures FillsWell(parts, infos, size, Ok(r.(updates := Updates(items[..n], idx) + r.updates)), |items|)
  {
    MoreRecords(parts, idx, p, r);
    UpdatesJoin(items[..n], idx, r.updates, r.partitions);
    assert Shape(r.partitions, infos, size);
  }

  lemma {:induction false} UpdatesJoin(items: seq<SectorInfo>, idx: nat, updates: seq<(nat, nat)>, parts: Parts)
    requires idx in parts && UpdatesWithin(updates, parts)
    ensures UpdatesWithin(Updates(items, idx), parts) && UpdatesWithin(Updates(items, idx) + updates, parts)
  {
  }

  lemma {:induction false} MoreRecords(parts: Parts, idx: nat, p: Partition, r: Filled)
    requires RecordsKept(parts[idx := p], r.partitions)
             && p.earlyTerminations == PartitionAt(parts, idx).earlyTerminations
    ensures RecordsKept(parts, r.partitions) && idx in r.partitions
  {
    assert idx in parts[idx := p];
    forall m | m in r.partitions ensures r.partitions[m].earlyTerminations == PartitionAt(parts, m).earlyTerminations {
      assert m != idx ==> PartitionAt(parts[idx := p], m) == PartitionAt(parts, m);
    }
  }

  lemma {:induction false} InsertValues(blocks: map<nat, nat>, updates: seq<(nat, nat)>, keys: set<nat>)
    requires blocks.Values <= keys && forall i :: 0 <= i < |updates| ==> updates[i].1 in keys
    ensures Insert(blocks, updates).Values <= keys
  {
    if updates != [] {
      var n := |updates| - 1;
      assert forall i :: 0 <= i < n ==> updates[..n][i] == updates[i];
      InsertValues(blocks, updates[..n], keys);
    }
  }

  /** Adding new sectors always succeeds and keeps the deadline valid. */
  lemma {:induction false} AddKeeps(d: Deadline, infos: Infos, size: nat, items: seq<SectorInfo>)
    requires Valid(d, infos, size) && FreshItems(d.partitions, infos, items)
    ensures Deadlines.AddSectors(d, size, items).Ok? && Valid(Deadlines.AddSectors(d, size, items).value, infos, size)
    ensures Deadlines.AddSectors(d, size, items).value.totalSectors == d.totalSectors + |items|
  {
    if items != [] {
      var r := Fill(d.partitions, LastIndex(d.partitions), size, items);
      FillStart(d.partitions, infos, size);
      FillKeeps(d.partitions, infos, size, LastIndex(d.partitions), items, r);
      FilledApplied(d, infos, size, r, |items|);
    }
  }

  lemma {:induction false} FilledApplied(d: Deadline, infos: Infos, size: nat, r: Result<Filled, Error>, n: nat)
    requires Valid(d, infos, size) && FillsWell(d.partitions, infos, size, r, n)
    ensures AddFilled(d, r, n).Ok? && Valid(AddFilled(d, r, n).value, infos, size)
    ensures AddFilled(d, r, n).value.totalSectors == d.totalSectors + n
  {
    var blocks := Insert(d.expirationsBlocks, r.value.updates);
    InsertValues(d.expirationsBlocks, r.value.updates, r.value.partitions.Keys);
    StillMarked(d.partitions, r.value.partitions, d.earlyTerminations);
    FilledValid(d, infos, size, r.value.partitions, blocks, n);
  }

  lemma {:induction false} FilledValid(d: Deadline, infos: Infos, size: nat, parts: Parts, blocks: map<nat, nat>,
                                       n: nat)
    requires Valid(d, infos, size) && Shape(parts, infos, size) && Marked(parts, d.earlyTerminations)
    requires d.partitions.Keys <= parts.Keys && blocks.Values <= parts.Keys
    requires SectorCount(parts, |parts|) == SectorCount(d.partitions, |d.partitions|) + n
    requires LiveCount(parts, |parts|) == LiveCount(d.partitions, |d.partitions|) + n
    ensures Valid(d.(partitions := parts, expirationsBlocks := blocks, liveSectors := d.liveSectors + n,
                     totalSectors := d.totalSectors + n), infos, size)
  {
  }

  lemma {:induction false} StillMarked(parts: Parts, parts': Parts, marks: set<nat>)
    requires Marked(parts, marks) && RecordsKept(parts, parts')
    ensures Marked(parts', marks)
  {
    forall m | m in parts' && m !in marks ensures NothingRecorded(parts'[m]) {
      assert m in parts ==> NothingRecorded(parts[m]);
    }
  }

  // ---------- faults, recoveries and proofs ----------

  lemma {:induction false} FaultOneKeeps(d: Deadline, infos: Infos, size: nat, n: nat, numbers: set<nat>, block: nat)
    requires Valid(d, infos, size)
    ensures var r := RecordFaultsOne(d, infos, n, numbers, block);
            && (r.Ok? <==> n in d.partitions && numbers <= infos.Keys && numbers <= d.partitions[n].sectors)
            && (r.Ok? ==> Valid(r.value, infos, size))
  {
    if n in d.partitions && numbers <= infos.Keys {
      var r := FaultedPartition(d.partitions[n], infos, numbers, block);
      if r.Ok? { FaultsApplied(d, infos, size, n, r.value.0, block); }
    }
  }

  /** What recording faults does to one partition, as far as its deadline is concerned. */
  lemma {:induction false} FaultedPartition(p: Partition, infos: Infos, numbers: set<nat>, block: nat)
      returns (r: Result<(Partition, set<nat>), Error>)
    requires PI.Valid(p, infos) && numbers <= infos.Keys
    ensures r == Partitions.RecordFaults(p, infos, numbers, block) && (r.Ok? <==> numbers <= p.sectors)
    ensures r.Ok? ==>
              && PI.Valid(r.value.0, infos) && r.value.0.sectors == p.sectors && r.value.0.Live() == p.Live()
              && r.value.0.earlyTerminations == p.earlyTerminations
  {
    PI.RecordFaultsKeeps(p, infos, numbers, block);
    assert numbers * infos.Keys == numbers;
    r := Partitions.RecordFaults(p, infos, numbers, block);
  }

  lemma {:induction false} FaultsApplied(d: Deadline, infos: Infos, size: nat, n: nat, p: Partition, block: nat)
    requires Valid(d, infos, size) && n in d.partitions && PI.Valid(p, infos)
    requires p.sectors == d.partitions[n].sectors && p.Live() == d.partitions[n].Live()
    requires p.earlyTerminations == d.partitions[n].earlyTerminations
    ensures Valid(d.(partitions := d.partitions[n := p],
                     expirationsBlocks := MoveBlock(d.expirationsBlocks, n, block)), infos, size)
  {
    ReplaceSameLive(d, infos, size, n, p);
    MoveBlockValues(d.expirationsBlocks, n, block);
    WithBlocks(d.(partitions := d.partitions[n := p]), infos, size, MoveBlock(d.expirationsBlocks, n, block));
  }

  lemma {:induction false} MoveBlockValues(blocks: map<nat, nat>, n: nat, block: nat)
    ensures MoveBlock(blocks, n, block).Values <= blocks.Values + {n}
  {
  }

  lemma {:induction false} WithBlocks(d: Deadline, infos: Infos, size: nat, blocks: map<nat, nat>)
    requires Valid(d, infos, size) && blocks.Values <= d.partitions.Keys
    ensures Valid(d.(expirationsBlocks := blocks), infos, size)
  {
    var d' := d.(expirationsBlocks := blocks);
    assert Shape(d'.partitions, infos, size);
    assert Marked(d'.partitions, d'.earlyTerminations);
  }

  lemma {:induction false} FaultsKeep(d: Deadline, infos: Infos, size: nat, request: Request, todo: set<nat>,
                                      block: nat)
    requires Valid(d, infos, size) && todo <= request.Keys
    ensures Deadlines.RecordFaults(d, infos, request, todo, block).Ok? ==>
              Valid(Deadlines.RecordFaults(d, infos, request, todo, block).value, infos, size)
    decreases todo
  {
    if todo != {} {
      var n := Least(todo);
      FaultOneKeeps(d, infos, size, n, request[n], block);
      var r := RecordFaultsOne(d, infos, n, request[n], block);
      if r.Ok? { FaultsKeep(r.value, infos, size, request, todo - {n}, block); }
    }
  }

  lemma {:induction false} RecoveriesKeep(d: Deadline, infos: Infos, size: nat, request: Request, todo: set<nat>)
    requires Valid(d, infos, size) && todo <= request.Keys
    ensures Deadlines.DeclareFaultsRecovered(d, infos, request, todo).Ok? ==>
              Valid(Deadlines.DeclareFaultsRecovered(d, infos, request, todo).value, infos, size)
    decreases todo
  {
    if todo != {} {
      var n := Least(todo);
      var r := DeclareRecoveredOne(d, infos, n, request[n]);
      if r.Ok? {
        var p := d.partitions[n];
        PI.DeclareRecoveredKeeps(p, infos, request[n]);
        ReplaceSameLive(d, infos, size, n, Partitions.DeclareFaultsRecovered(p, request[n]));
        RecoveriesKeep(r.value, infos, size, request, todo - {n});
      }
    }
  }

  lemma {:induction false} ProvenKeeps(d: Deadline, infos: Infos, size: nat, numbers: seq<nat>)
    requires Valid(d, infos, size)
    ensures RecoveriesKnown(d, infos)
    ensures RecordProven(d, infos, numbers).Ok? ==> Valid(RecordProven(d, infos, numbers).value, infos, size)
    decreases |numbers|
  {
    KnownRecoveries(d, infos, size);
    if numbers != [] {
      var r := RecordProvenOne(d, infos, numbers[0]);
      if r.Ok? {
        var p := d.partitions[numbers[0]];
        PI.ProveKeeps(p, infos);
        ReplaceSameLive(d, infos, size, numbers[0], Partitions.Prove(p, infos).value);
        ProvenKeeps(r.value, infos, size, numbers[1..]);
      }
    }
  }

  lemma {:induction false} KnownRecoveries(d: Deadline, infos: Infos, size: nat)
    requires Valid(d, infos, size)
    ensures RecoveriesKnown(d, infos)
  {
    forall n | n in d.partitions ensures d.partitions[n].recoveries <= infos.Keys {
      assert PI.Valid(d.partitions[n], infos);
    }
  }

  /** A partition that missed its proof: all its sectors are declared faulty, and this cannot fail. */
  lemma {:induction false} MissedKeeps(d: Deadline, infos: Infos, size: nat, n: nat, block: nat)
    requires Valid(d, infos, size) && n in d.partitions
    ensures var r := Partitions.RecordFaults(d.partitions[n], infos, d.partitions[n].sectors, block);
            && r.Ok? && r.value.0.faults == r.value.0.Live()
            && Valid(d.(partitions := d.partitions[n := r.value.0]), infos, size)
            && r.value.0.sectors == d.partitions[n].sectors
            && r.value.0.earlyTerminations == d.partitions[n].earlyTerminations
  {
    var p := d.partitions[n];
    assert PI.Valid(p, infos);
    PI.RecordFaultsKeeps(p, infos, p.sectors, block);
    var p' := Partitions.RecordFaults(p, infos, p.sectors, block).value.0;
    ReplaceSameLive(d, infos, size, n, p');
  }

  // ---------- termination ----------

  lemma {:induction false} TerminateOneKeeps(d: Deadline, infos: Infos, size: nat, block: nat, n: nat,
                                             numbers: set<nat>)
    requires Valid(d, infos, size)
    ensures var r := TerminateOne(d, block, infos, n, numbers);
            && (r.Ok? <==> n in d.partitions && numbers <= d.partitions[n].Live())
            && (r.Ok? ==> Valid(r.value, infos, size) && r.value.liveSectors == d.liveSectors - |numbers|)
  {
    if n in d.partitions {
      var p := d.partitions[n];
      assert PI.Valid(p, infos);
      PI.TerminateKeeps(p, infos, block, numbers);
      var r := Partitions.TerminateSectors(p, block, infos, numbers);
      if r.Ok? {
        var (p', removed) := r.value;
        assert |removed.All()| == |removed.onTime| + |removed.early|;
        assert removed.IsEmpty() <==> numbers == {};
        TerminateApplied(d, infos, size, n, p', numbers, block);
      }
    }
  }

  lemma {:induction false} TerminateApplied(d: Deadline, infos: Infos, size: nat, n: nat, p: Partition,
                                            numbers: set<nat>, block: nat)
    requires Valid(d, infos, size) && n in d.partitions && PI.Valid(p, infos) && p.sectors == d.partitions[n].sectors
    requires numbers <= d.partitions[n].Live() && p.Live() == d.partitions[n].Live() - numbers
    requires p.earlyTerminations == d.partitions[n].earlyTerminations[block := numbers]
    ensures Valid(d.(partitions := d.partitions[n := p],
                     earlyTerminations := if numbers == {} then d.earlyTerminations else d.earlyTerminations + {n},
                     liveSectors := d.liveSectors - |numbers|), infos, size)
  {
    FewerLive(d.partitions[n].Live(), numbers);
    ReplaceKeeps(d.partitions, infos, size, n, p);
    MarkedMore(d.partitions, n, p, numbers, block, d.earlyTerminations);
    assert d.earlyTerminations + {} == d.earlyTerminations;
    assert Shape(d.partitions[n := p], infos, size);
  }

  lemma {:induction false} FewerLive(live: set<nat>, numbers: set<nat>)
    requires numbers <= live
    ensures |live - numbers| == |live| - |numbers|
  {
    assert live == (live - numbers) + numbers;
  }

  lemma {:induction false} TerminateKeeps(d: Deadline, infos: Infos, size: nat, block: nat, request: Request,
                                          todo: set<nat>)
    requires Valid(d, infos, size) && todo <= request.Keys
    ensures Deadlines.TerminateSectors(d, block, infos, request, todo).Ok? ==>
              Valid(Deadlines.TerminateSectors(d, block, infos, request, todo).value, infos, size)
    decreases todo
  {
    if todo != {} {
      var n := Least(todo);
      TerminateOneKeeps(d, infos, size, block, n, request[n]);
      var r := TerminateOne(d, block, infos, n, request[n]);
      if r.Ok? { TerminateKeeps(r.value, infos, size, block, request, todo - {n}); }
    }
  }

  // ---------- expiry ----------

  lemma {:induction false} ExpireKeeps(parts: Parts, infos: Infos, size: nat, marks: set<nat>, numbers: seq<nat>,
                                       until: nat)
    requires Shape(parts, infos, size) && Marked(parts, marks)
    ensures ExpireAll(parts, numbers, until).Ok?
            ==> ExpiresWell(parts, infos, size, marks, ExpireAll(parts, numbers, until).value)
    decreases |numbers|
  {
    if numbers != [] {
      ExpireKeeps(parts, infos, size, marks, numbers[..|numbers| - 1], until);
      var before := ExpireAll(parts, numbers[..|numbers| - 1], until);
      if before.Ok? && ExpireAll(parts, numbers, until).Ok? {
        ExpireOneMore(parts, infos, size, marks, before.value, numbers[|numbers| - 1], until);
      }
    }
  }

  lemma {:induction false} ExpireOneMore(parts: Parts, infos: Infos, size: nat, marks: set<nat>, e: Expired, n: nat,
                                         until: nat)
    requires Contiguous(parts) && ExpiresWell(parts, infos, size, marks, e)
    requires n in e.partitions && Partitions.PopExpiredSectors(e.partitions[n], until).Ok?
    ensures var (p', popped) := Partitions.PopExpiredSectors(e.partitions[n], until).value;
            ExpiresWell(parts, infos, size, marks, Accumulate(e, n, p', popped))
  {
    var p := e.partitions[n];
    assert PI.Valid(p, infos);
    PI.PopExpiredKeeps(p, infos, until);
    var (p', popped) := Partitions.PopExpiredSectors(p, until).value;
    ExpireApplied(parts, infos, size, marks, e, n, p', popped, until);
  }

  lemma {:induction false} ExpireApplied(parts: Parts, infos: Infos, size: nat, marks: set<nat>, e: Expired, n: nat,
                                         p: Partition, popped: ExpirationSet, until: nat)
    requires Contiguous(parts) && ExpiresWell(parts, infos, size, marks, e) && n in e.partitions
    requires PI.Valid(p, infos) && p.sectors == e.partitions[n].sectors
    requires popped.All() <= e.partitions[n].Live() && popped.onTime !! popped.early
    requires p.Live() == e.partitions[n].Live() - popped.All()
    requires p.earlyTerminations == e.partitions[n].earlyTerminations[until := popped.early]
    ensures ExpiresWell(parts, infos, size, marks, Accumulate(e, n, p, popped))
  {
    ExpireShape(parts, infos, size, e, n, p, popped);
    ExpireMarks(parts, marks, e, n, p, popped, until);
  }

  lemma {:induction false} ExpireShape(parts: Parts, infos: Infos, size: nat, e: Expired, n: nat, p: Partition,
                                       popped: ExpirationSet)
    requires Contiguous(parts) && Shape(e.partitions, infos, size) && e.partitions.Keys == parts.Keys
             && |e.partitions| == |parts|
    requires ExpiresCounts(parts, e) && n in e.partitions && Gone(e.popped.All(), e.partitions)
    requires PI.Valid(p, infos) && p.sectors == e.partitions[n].sectors
    requires popped.All() <= e.partitions[n].Live() && popped.onTime !! popped.early
    requires p.Live() == e.partitions[n].Live() - popped.All()
    ensures var r := Accumulate(e, n, p, popped);
            && Shape(r.partitions, infos, size) && r.partitions.Keys == parts.Keys && |r.partitions| == |parts|
            && ExpiresCounts(parts, r)
  {
    ReplaceKeeps(e.partitions, infos, size, n, p);
    ExpireCounts(parts, e, n, p, popped);
  }

  lemma {:induction false} ExpireCounts(parts: Parts, e: Expired, n: nat, p: Partition, popped: ExpirationSet)
    requires Contiguous(parts) && n in e.partitions && e.partitions.Keys == parts.Keys && ExpiresCounts(parts, e)
    requires SectorCount(e.partitions[n := p], |parts|) == SectorCount(e.partitions, |parts|)
    requires LiveCount(e.partitions[n := p], |parts|)
             == LiveCount(e.partitions, |parts|) + |p.Live()| - |e.partitions[n].Live()|
    requires popped.All() <= e.partitions[n].Live() && popped.onTime !! popped.early
    requires p.Live() == e.partitions[n].Live() - popped.All() && Gone(e.popped.All(), e.partitions)
    ensures e.partitions[n := p].Keys == parts.Keys && ExpiresCounts(parts, Accumulate(e, n, p, popped))
  {
    PoppedSizes(e.popped, popped, e.partitions[n], p);
  }

  lemma {:induction false} ExpireMarks(parts: Parts, marks: set<nat>, e: Expired, n: nat,
                                       p: Partition, popped: ExpirationSet, until: nat)
    requires n in e.partitions && e.partitions.Keys == parts.Keys && e.marked <= parts.Keys
    requires OnePartition(e.partitions) && Gone(e.popped.All(), e.partitions) && Marked(e.partitions, marks + e.marked)
    requires p.sectors == e.partitions[n].sectors && popped.All() <= e.partitions[n].Live()
    requires p.Live() == e.partitions[n].Live() - popped.All()
    requires p.earlyTerminations == e.partitions[n].earlyTerminations[until := popped.early]
    ensures var r := Accumulate(e, n, p, popped);
            ExpiresMarks(parts, marks, r)
  {
    var r := Accumulate(e, n, p, popped);
    GoneMore(e.partitions, n, p, e.popped.All(), popped.All());
    MarkedMore(e.partitions, n, p, popped.early, until, marks + e.marked);
    assert r.popped.All() == e.popped.All() + popped.All();
    assert marks + r.marked == marks + e.marked + (if popped.early != {} then {n} else {});
  }

  lemma {:induction false} PoppedSizes(total: ExpirationSet, popped: ExpirationSet, p: Partition, p': Partition)
    requires total.All() !! p.Live() && popped.All() <= p.Live() && popped.onTime !! popped.early
    requires p'.Live() == p.Live() - popped.All()
    ensures |total.onTime + popped.onTime| == |total.onTime| + |popped.onTime|
    ensures |total.early + popped.early| == |total.early| + |popped.early|
    ensures |p'.Live()| == |p.Live()| - |popped.onTime| - |popped.early|
  {
    assert total.onTime !! popped.onTime && total.early !! popped.early;
    assert |popped.All()| == |popped.onTime| + |popped.early|;
  }

  lemma {:induction false} GoneMore(parts: Parts, n: nat, p: Partition, gone: set<nat>, popped: set<nat>)
    requires n in parts && Gone(gone, parts) && OnePartition(parts)
    requires p.sectors == parts[n].sectors && p.Live() == parts[n].Live() - popped && popped <= parts[n].Live()
    ensures Gone(gone + popped, parts[n := p])
  {
  }

  lemma {:induction false} MarkedMore(parts: Parts, n: nat, p: Partition, early: set<nat>, until: nat, marks: set<nat>)
    requires n in parts && Marked(parts, marks) && p.earlyTerminations == parts[n].earlyTerminations[until := early]
    ensures Marked(parts[n := p], marks + (if early != {} then {n} else {}))
  {
    forall m | m in parts && m !in marks && (m != n || early == {}) ensures NothingRecorded(parts[n := p][m]) {
      assert NothingRecorded(parts[m]);
    }
  }

  lemma {:induction false} ExpiredKeeps(d: Deadline, infos: Infos, size: nat, until: nat)
    requires Valid(d, infos, size)
    ensures var r := Deadlines.PopExpiredSectors(d, until);
            r.Ok? ==>
              Valid(r.value.0, infos, size)
                  && r.value.0.liveSectors == d.liveSectors - |r.value.1.onTime| - |r.value.1.early|
  {
    var due := DueBlocks(d.expirationsBlocks, until);
    if due != {} {
      var listed := Listed(d.expirationsBlocks, due);
      ExpireKeeps(d.partitions, infos, size, d.earlyTerminations, listed, until);
      ExpiredApplied(d, infos, size, due, ExpireAll(d.partitions, listed, until));
    }
  }

  lemma {:induction false} ExpiredApplied(d: Deadline, infos: Infos, size: nat, due: set<nat>,
                                          r: Result<Expired, Error>)
    requires Valid(d, infos, size) && (r.Ok? ==> ExpiresWell(d.partitions, infos, size, d.earlyTerminations, r.value))
    ensures r.Ok? <==> AfterExpiry(d, due, r).Ok?
    ensures r.Ok? ==> Valid(AfterExpiry(d, due, r).value.0, infos, size)
    ensures r.Ok? ==> AfterExpiry(d, due, r).value.1 == r.value.popped
    ensures r.Ok? ==>
              AfterExpiry(d, due, r).value.0.liveSectors ==
              d.liveSectors - |r.value.popped.onTime| - |r.value.popped.early|
  {
    if r.Ok? {
      FewerBlocks(d.expirationsBlocks, due);
      assert Shape(r.value.partitions, infos, size);
    }
  }

  lemma {:induction false} FewerBlocks(blocks: map<nat, nat>, due: set<nat>)
    ensures (blocks - due).Values <= blocks.Values
  {
  }

  // ---------- popping early terminations ----------

  lemma {:induction false} PopMarkedKeeps(d: Deadline, infos: Infos, size: nat, todo: set<nat>, maxPartitions: nat,
                                          maxSectors: nat,
                                          so: TerminationResult, r: (Deadline, TerminationResult))
    requires Valid(d, infos, size) && so.sectorsProcessed <= maxSectors && todo <= d.partitions.Keys
    requires r == PopMarked(d, todo, maxPartitions, maxSectors, so)
    ensures Valid(r.0, infos, size)
    decreases todo
  {
    if todo == {} {
      assert r == (d, so);
    } else {
      var n := Least(todo);
      var max := maxSectors - so.sectorsProcessed;
      var result, d', so' := PopMarkedUnfold(d, n, todo, maxPartitions, maxSectors, so, r, max);
      PopOneKeeps(d, infos, size, n, max, d');
      if so'.BelowLimit(maxPartitions, maxSectors) {
        PopMarkedKeeps(d', infos, size, todo - {n}, maxPartitions, maxSectors, so', r);
      }
    }
  }

  lemma {:induction false} PopOneKeeps(d: Deadline, infos: Infos, size: nat, n: nat, max: nat, d': Deadline)
    requires Valid(d, infos, size) && n in d.partitions && d' == AfterPop(d, n, max)
    ensures Valid(d', infos, size)
  {
    var p := d.partitions[n];
    PopSplits(p.earlyTerminations, max);
    RestApplied(d, infos, size, n, Pop(p.earlyTerminations, max).rest);
  }

  /** Any remainder of a partition's records may replace them; an empty one lets the mark go. */
  lemma {:induction false} RestApplied(d: Deadline, infos: Infos, size: nat, n: nat, rest: Terminations)
    requires Valid(d, infos, size) && n in d.partitions
    requires forall b :: b in rest ==>
               b in d.partitions[n].earlyTerminations && rest[b] <= d.partitions[n].earlyTerminations[b]
    ensures Valid(d.(partitions := d.partitions[n := d.partitions[n].(earlyTerminations := rest)],
                     earlyTerminations := if rest != map[] then d.earlyTerminations else d.earlyTerminations - {n}),
                     infos, size)
  {
    var before := d.partitions[n];
    var p := before.(earlyTerminations := rest);
    assert PI.Valid(before, infos);
    assert PI.Valid(p, infos);
    ReplaceKeeps(d.partitions, infos, size, n, p);
    RestMarked(d.partitions, d.earlyTerminations, n, rest);
  }

  lemma {:induction false} RestMarked(parts: Parts, marks: set<nat>, n: nat, rest: Terminations)
    requires n in parts && Marked(parts, marks)
    requires forall b :: b in rest ==> b in parts[n].earlyTerminations && rest[b] <= parts[n].earlyTerminations[b]
    ensures Marked(parts[n := parts[n].(earlyTerminations := rest)], if rest != map[] then marks else marks - {n})
  {
    var p := parts[n].(earlyTerminations := rest);
    forall m | m in parts && (m !in marks || (m == n && rest == map[])) ensures NothingRecorded(parts[n := p][m]) {
      if m != n || rest != map[] { assert NothingRecorded(parts[m]); }
    }
  }
}
