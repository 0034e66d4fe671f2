/** Where new sectors of a deadline go: sectors are numbered through the deadline in the order they are added,
    and the k-th is in partition k / size. */
module AddingEffects {
  import opened Arith
  import opened Results
  import opened ExpirationQueue
  import opened Partitions
  import opened Deadlines
  import opened DeadlineSpec
  import DI = DeadlineInvariant
  import PE = PartitionEffects

  /** The homes of sectors added after `total` others: partitions are filled one after the other. */
  ghost predicate InOrder(homes: seq<nat>, total: nat, size: nat)
    requires size > 0
  {
    forall i :: 0 <= i < |homes| ==> homes[i] == (total + i) / size
  }

  /** The items whose home is partition n. */
  ghost function ShareOf(items: seq<SectorInfo>, homes: seq<nat>, n: nat): set<SectorInfo>
    requires |homes| == |items|
  {
    set i | 0 <= i < |items| && homes[i] == n :: items[i]
  }

  /** Every item is in its home, unproven and due at its own expiration, and nothing else has changed. */
  ghost predicate Spread(parts: Parts, parts': Parts, items: seq<SectorInfo>, homes: seq<nat>) {
    && |homes| == |items| && parts.Keys <= parts'.Keys
    && (forall i :: 0 <= i < |homes| ==> homes[i] in parts')
    && (forall n :: n in parts' ==> PE.Added(PartitionAt(parts, n), parts'[n], ShareOf(items, homes, n)))
  }

  /** The index entries of the items, in order. */
  ghost predicate Entries(updates: seq<(nat, nat)>, items: seq<SectorInfo>, homes: seq<nat>) {
    && |updates| == |items| == |homes|
    && forall i :: 0 <= i < |items| ==> updates[i] == (items[i].expiration, homes[i])
  }

  // ---------- one partition ----------

  ghost function Same(n: nat, k: nat): (homes: seq<nat>)
    ensures |homes| == k
  {
    seq(k, _ => n)
  }

  lemma {:induction false} SameInOrder(idx: nat, size: nat, held: nat, total: nat, n: nat)
    requires size > 0 && total == idx * size + held && held + n <= size
    ensures InOrder(Same(idx, n), total, size)
  {
    forall i | 0 <= i < n ensures Same(idx, n)[i] == (total + i) / size { DivBy(total + i, idx, size, held + i); }
  }

  lemma {:induction false} TakesSpread(parts: Parts, idx: nat, items: seq<SectorInfo>, homes: seq<nat>, p': Partition)
    requires Partitions.AddSectors(PartitionAt(parts, idx), items) == Ok(p') && homes == Same(idx, |items|)
    ensures Spread(parts, parts[idx := p'], items, homes) && Entries(Updates(items, idx), items, homes)
  {
    PE.AddingAdds(PartitionAt(parts, idx), items, p');
    assert ShareOf(items, homes, idx) == PE.Elements(items);
    forall n | n in parts && n != idx ensures PE.Added(parts[n], parts[n], ShareOf(items, homes, n)) {
      assert ShareOf(items, homes, n) == {};
    }
  }

  // ---------- one after the other ----------

  lemma {:induction false} AddedTwice(p: Partition, p1: Partition, p2: Partition, a: set<SectorInfo>,
                                      b: set<SectorInfo>)
    requires PE.Added(p, p1, a) && PE.Added(p1, p2, b)
    ensures PE.Added(p, p2, a + b)
  {
    assert PE.NumbersOf(a + b) == PE.NumbersOf(a) + PE.NumbersOf(b);
  }

  lemma {:induction false} SharesJoin(items: seq<SectorInfo>, homes: seq<nat>, more: seq<SectorInfo>,
                                      moreHomes: seq<nat>, n: nat)
    requires |homes| == |items| && |moreHomes| == |more|
    ensures ShareOf(items + more, homes + moreHomes, n) == ShareOf(items, homes, n) + ShareOf(more, moreHomes, n)
  {
    var all, hs := items + more, homes + moreHomes;
    forall x | x in ShareOf(more, moreHomes, n) ensures x in ShareOf(all, hs, n) {
      var i :| 0 <= i < |more| && moreHomes[i] == n && more[i] == x;
      assert all[|items| + i] == x && hs[|items| + i] == n;
    }
    forall x | x in ShareOf(items, homes, n) ensures x in ShareOf(all, hs, n) {
      var i :| 0 <= i < |items| && homes[i] == n && items[i] == x;
      assert all[i] == x && hs[i] == n;
    }
  }

  lemma {:induction false} SpreadJoin(parts: Parts, parts1: Parts, parts': Parts, items: seq<SectorInfo>,
                                      homes: seq<nat>, more: seq<SectorInfo>, moreHomes: seq<nat>)
    requires Spread(parts, parts1, items, homes) && Spread(parts1, parts', more, moreHomes)
    ensures Spread(parts, parts', items + more, homes + moreHomes)
  {
    forall n | n in parts'
      ensures PE.Added(PartitionAt(parts, n), parts'[n], ShareOf(items + more, homes + moreHomes, n))
    {
      SharesJoin(items, homes, more, moreHomes, n);
      SpreadAt(parts, parts1, parts', items, homes, more, moreHomes, n);
    }
  }

  lemma {:induction false} SpreadAt(parts: Parts, parts1: Parts, parts': Parts, items: seq<SectorInfo>,
                                    homes: seq<nat>, more: seq<SectorInfo>, moreHomes: seq<nat>, n: nat)
    requires Spread(parts, parts1, items, homes) && Spread(parts1, parts', more, moreHomes) && n in parts'
    ensures PE.Added(PartitionAt(parts, n), parts'[n], ShareOf(items, homes, n) + ShareOf(more, moreHomes, n))
  {
    if n in parts1 {
      AddedTwice(PartitionAt(parts, n), parts1[n], parts'[n], ShareOf(items, homes, n), ShareOf(more, moreHomes, n));
    } else {
      assert ShareOf(items, homes, n) == {};
      assert {} + ShareOf(more, moreHomes, n) == ShareOf(more, moreHomes, n);
    }
  }

  lemma {:induction false} InOrderJoin(homes: seq<nat>, more: seq<nat>, total: nat, next: nat, size: nat)
    requires size > 0 && InOrder(homes, total, size) && next == total + |homes| && InOrder(more, next, size)
    ensures InOrder(homes + more, total, size)
  {
    forall i | 0 <= i < |homes + more| ensures (homes + more)[i] == (total + i) / size {
      if i >= |homes| { assert more[i - |homes|] == (next + (i - |homes|)) / size; }
    }
  }

  // ---------- filling ----------

  /** Filling puts the items into their homes and lists them there. */
  ghost predicate FillsTo(parts: Parts, r: Result<Filled, Error>, items: seq<SectorInfo>, homes: seq<nat>, total: nat,
                          size: nat)
    requires size > 0
  {
    && r.Ok? && Spread(parts, r.value.partitions, items, homes) && Entries(r.value.updates, items, homes)
    && InOrder(homes, total, size)
  }

  lemma {:induction false} FillsOn(parts: Parts, first: Filled, more: Result<Filled, Error>, items: seq<SectorInfo>,
                                   n: nat, homes: seq<nat>, later: seq<nat>, total: nat, next: nat, size: nat)
    requires size > 0 && n <= |items| && next == total + n && FillsTo(parts, Ok(first), items[..n], homes, total, size)
    requires FillsTo(first.partitions, more, items[n..], later, next, size)
    ensures FillsTo(parts, Noted(first.updates, more), items, homes + later, total, size)
  {
    assert items[..n] + items[n..] == items;
    SpreadJoin(parts, first.partitions, more.value.partitions, items[..n], homes, items[n..], later);
    EntriesJoin(items[..n], items[n..], homes, later, first.updates, more.value.updates);
    InOrderJoin(homes, later, total, next, size);
  }

  lemma {:induction false} FillSpreads(parts: Parts, infos: Infos, size: nat, idx: nat, items: seq<SectorInfo>,
                                       total: nat, r: Result<Filled, Error>)
      returns (homes: seq<nat>)
    requires size > 0 && items != [] && FillPoint(parts, infos, size, idx) && FreshItems(parts, infos, items)
    requires |PartitionAt(parts, idx).sectors| < size && r == Fill(parts, idx, size, items)
    requires total == idx * size + |PartitionAt(parts, idx).sectors|
    ensures FillsTo(parts, r, items, homes, total, size)
    decreases |items|
  {
    var n := Room(PartitionAt(parts, idx), size, items);
    var first, more := FirstSpreads(parts, infos, size, idx, items, total, n, r);
    homes := Same(idx, n);
    if n < |items| {
      var next := total + n;
      var later := FillSpreads(first.partitions, infos, size, idx + 1, items[n..], next, more);
      FillsOn(parts, first, more, items, n, homes, later, total, next, size);
      homes := homes + later;
    }
  }

  /** The partition at the fill point takes the first items; the others go to the partitions after it. */
  lemma {:induction false} FirstSpreads(parts: Parts, infos: Infos, size: nat, idx: nat, items: seq<SectorInfo>,
                                        total: nat, n: nat, r: Result<Filled, Error>)
      returns (first: Filled, more: Result<Filled, Error>)
    requires size > 0 && items != [] && FillPoint(parts, infos, size, idx) && FreshItems(parts, infos, items)
    requires |PartitionAt(parts, idx).sectors| < size && r == Fill(parts, idx, size, items)
    requires total == idx * size + |PartitionAt(parts, idx).sectors| && n == Room(PartitionAt(parts, idx), size, items)
    ensures 0 < n <= |items| && FillsTo(parts, Ok(first), items[..n], Same(idx, n), total, size)
    ensures n == |items| ==> items[..n] == items && r == Ok(first)
    ensures n < |items| ==>
              var parts1 := first.partitions;
              && FillPoint(parts1, infos, size, idx + 1) && PartitionAt(parts1, idx + 1) == EMPTY_PARTITION
              && FreshItems(parts1, infos, items[n..]) && more == Fill(parts1, idx + 1, size, items[n..])
              && r == Noted(first.updates, more) && total + n == (idx + 1) * size
  {
    var held := |PartitionAt(parts, idx).sectors|;
    var p';
    p', more := DI.FillFirst(parts, infos, size, idx, items, n, r);
    first := Filled(parts[idx := p'], Updates(items[..n], idx));
    SameInOrder(idx, size, held, total, n);
    TakesSpread(parts, idx, items[..n], Same(idx, n), p');
    if n < |items| {
      DI.FillFull(first.partitions, infos, size, idx, items[n..], more);
      NextTotal(idx, size, held, total, n);
    }
  }

  lemma {:induction false} EntriesJoin(first: seq<SectorInfo>, rest: seq<SectorInfo>, homes: seq<nat>,
                                       later: seq<nat>, updates: seq<(nat, nat)>, more: seq<(nat, nat)>)
    requires Entries(updates, first, homes) && Entries(more, rest, later)
    ensures Entries(updates + more, first + rest, homes + later)
  {
  }

  lemma {:induction false} NextTotal(idx: nat, size: nat, held: nat, total: nat, n: nat)
    requires total == idx * size + held && held + n == size
    ensures total + n == (idx + 1) * size
  {
    Distribute(idx, 1, size);
  }

  /** The sectors of the partitions before the fill point, and of the one there. */
  lemma {:induction false} FillTotal(parts: Parts, infos: Infos, size: nat, idx: nat)
    requires size > 0 && FillPoint(parts, infos, size, idx)
    ensures SectorCount(parts, |parts|) == idx * size + |PartitionAt(parts, idx).sectors|
  {
    DI.FullCount(parts, size, idx);
  }

  // ---------- the index ----------

  /** The last item with the given expiration is the i-th. */
  ghost predicate LastWith(items: seq<SectorInfo>, b: nat, i: nat) {
    i < |items| && items[i].expiration == b && forall j :: i < j < |items| ==> items[j].expiration != b
  }

  ghost predicate Expires(items: seq<SectorInfo>, b: nat) {
    exists i :: 0 <= i < |items| && items[i].expiration == b
  }

  /** Each expiration is listed for the home of the last item with it; no other entry has changed. */
  ghost predicate Indexed(blocks: map<nat, nat>, blocks': map<nat, nat>, items: seq<SectorInfo>, homes: seq<nat>) {
    && |homes| == |items|
    && (forall b :: b in blocks' <==> b in blocks || Expires(items, b))
    && (forall b, i: nat :: LastWith(items, b, i) ==> b in blocks' && blocks'[b] == homes[i])
    && (forall b :: b in blocks && !Expires(items, b) ==> b in blocks' && blocks'[b] == blocks[b])
  }

  lemma {:induction false} InsertIndexes(blocks: map<nat, nat>, updates: seq<(nat, nat)>, items: seq<SectorInfo>,
                                         homes: seq<nat>)
    requires Entries(updates, items, homes)
    ensures Indexed(blocks, Insert(blocks, updates), items, homes)
  {
    if items != [] {
      var n := |items| - 1;
      InsertIndexes(blocks, updates[..n], items[..n], homes[..n]);
      IndexedSnoc(blocks, Insert(blocks, updates[..n]), items, homes);
    }
  }

  lemma {:induction false} IndexedSnoc(blocks: map<nat, nat>, blocks1: map<nat, nat>, items: seq<SectorInfo>,
                                       homes: seq<nat>)
    requires items != [] && |homes| == |items|
    requires Indexed(blocks, blocks1, items[..|items| - 1], homes[..|items| - 1])
    ensures Indexed(blocks, blocks1[items[|items| - 1].expiration := homes[|items| - 1]], items, homes)
  {
    var n := |items| - 1;
    var init, last := items[..n], items[n].expiration;
    assert forall i :: 0 <= i < n ==> init[i] == items[i] && homes[..n][i] == homes[i];
    forall b ensures Expires(items, b) <==> Expires(init, b) || b == last {
      if b == last { assert items[n].expiration == b; }
      if i :| 0 <= i < |init| && init[i].expiration == b { assert items[i].expiration == b; }
    }
    forall b, i: nat | LastWith(items, b, i) ensures if b == last then i == n else LastWith(init, b, i) {
      if b == last { assert !(i < n < |items|); }
    }
  }

  // ---------- adding to a deadline ----------

  /** The items are spread over their homes and listed there, and the two counters have grown. */
  ghost predicate SectorsAdded(d: Deadline, d': Deadline, items: seq<SectorInfo>, homes: seq<nat>) {
    && Spread(d.partitions, d'.partitions, items, homes)
    && Indexed(d.expirationsBlocks, d'.expirationsBlocks, items, homes)
    && d' == d.(partitions := d'.partitions, expirationsBlocks := d'.expirationsBlocks,
                liveSectors := d.liveSectors + |items|, totalSectors := d.totalSectors + |items|)
  }

  /** Adding new sectors puts the i-th of them into partition (total + i) / size and lists that partition for
      the sector's expiration, unless a later one with the same expiration goes elsewhere. */
  lemma {:induction false} AddEffect(d: Deadline, infos: Infos, size: nat, items: seq<SectorInfo>, total: nat,
                                     d': Deadline)
      returns (homes: seq<nat>)
    requires Valid(d, infos, size) && FreshItems(d.partitions, infos, items) && total == d.totalSectors
    requires Deadlines.AddSectors(d, size, items) == Ok(d')
    ensures InOrder(homes, total, size) && SectorsAdded(d, d', items, homes)
  {
    if items == [] {
      homes := [];
      NothingAdded(d);
    } else {
      var idx := LastIndex(d.partitions);
      var r := Fill(d.partitions, idx, size, items);
      AddIs(d, size, items, idx, r);
      homes := FillFromLast(d, infos, size, idx, items, total, r);
      FilledEffect(d, r, items, homes, d');
    }
  }

  lemma {:induction false} FilledEffect(d: Deadline, r: Result<Filled, Error>, items: seq<SectorInfo>,
                                        homes: seq<nat>, d': Deadline)
    requires AddFilled(d, r, |items|) == Ok(d')
    requires Spread(d.partitions, r.value.partitions, items, homes) && Entries(r.value.updates, items, homes)
    ensures SectorsAdded(d, d', items, homes)
  {
    InsertIndexes(d.expirationsBlocks, r.value.updates, items, homes);
  }

  lemma {:induction false} NothingAdded(d: Deadline)
    ensures SectorsAdded(d, d, [], [])
  {
    forall n | n in d.partitions ensures PE.Added(d.partitions[n], d.partitions[n], ShareOf([], [], n)) {
      assert ShareOf([], [], n) == {};
    }
  }

  lemma {:induction false} FillFromLast(d: Deadline, infos: Infos, size: nat, idx: nat, items: seq<SectorInfo>,
                                        total: nat, r: Result<Filled, Error>)
      returns (homes: seq<nat>)
    requires Valid(d, infos, size) && FreshItems(d.partitions, infos, items) && total == d.totalSectors
    requires items != [] && idx == LastIndex(d.partitions) && r == Fill(d.partitions, idx, size, items)
    ensures FillsTo(d.partitions, r, items, homes, total, size)
  {
    DI.FillStart(d.partitions, infos, size);
    FillTotal(d.partitions, infos, size, idx);
    if |PartitionAt(d.partitions, idx).sectors| < size {
      homes := FillSpreads(d.partitions, infos, size, idx, items, total, r);
    } else {
      DI.FillFull(d.partitions, infos, size, idx, items, r);
      FillTotal(d.partitions, infos, size, idx + 1);
      homes := FillSpreads(d.partitions, infos, size, idx + 1, items, total, r);
    }
  }
}
