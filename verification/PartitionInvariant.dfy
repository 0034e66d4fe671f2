/** The partition invariant: what every operation keeps, and exactly when each operation succeeds. */
module PartitionInvariant {
  import opened Results
  import opened ExpirationQueue
  import opened Partitions

  ghost predicate OnTimeAt(q: Queue, k: nat, s: nat) {
    k in q && s in q[k].onTime
  }

  ghost predicate EarlyAt(q: Queue, k: nat, s: nat) {
    k in q && s in q[k].early
  }

  /** Where sectors sit in the queue, given their expirations and the faulty ones among them:
      on time only under their own expiration, early only while faulty and before it, in one place. */
  ghost predicate Placed(q: Queue, infos: Infos, faults: set<nat>) {
    && (forall k, s :: OnTimeAt(q, k, s) ==> s in infos && k == infos[s])
    && (forall k, s :: EarlyAt(q, k, s) ==> s in infos && k < infos[s] && s in faults)
    && (forall j, k, s :: EarlyAt(q, j, s) && EarlyAt(q, k, s) ==> j == k)
    && (forall j, k, s :: EarlyAt(q, j, s) ==> !OnTimeAt(q, k, s))
  }

  ghost predicate Scheduled(q: Queue, s: nat) {
    exists k :: OnTimeAt(q, k, s) || EarlyAt(q, k, s)
  }

  /** The queue schedules exactly the live sectors. */
  ghost predicate Covers(q: Queue, live: set<nat>) {
    forall s :: s in live <==> Scheduled(q, s)
  }

  ghost predicate TerminationsTidy(p: Partition) {
    && (forall b :: b in p.earlyTerminations ==> p.earlyTerminations[b] <= p.terminated)
    && (forall a, b :: a in p.earlyTerminations && b in p.earlyTerminations && a != b ==>
          p.earlyTerminations[a] !! p.earlyTerminations[b])
  }

  /** What every reachable partition satisfies, given the provider's sector information. */
  ghost predicate Valid(p: Partition, infos: Infos) {
    && p.sectors <= infos.Keys
    && p.terminated <= p.sectors
    && p.faults <= p.Live()
    && p.recoveries <= p.faults
    && p.unproven <= p.Live()
    && p.unproven !! p.faults
    && Placed(p.expirations, infos, p.faults)
    && Covers(p.expirations, p.Live())
    && TerminationsTidy(p)
  }

  lemma {:induction false} ScheduledIsMentioned(q: Queue, s: nat)
    ensures Scheduled(q, s) <==> Mentioned(q, s)
  {
    if k :| OnTimeAt(q, k, s) || EarlyAt(q, k, s) { assert s in q[k].All(); }
    if k :| k in q && s in q[k].All() { assert OnTimeAt(q, k, s) || EarlyAt(q, k, s); }
  }

  /** A live sector is in exactly one entry, on one side of it; healthy ones are on time. */
  lemma {:induction false} ExactlyOnce(p: Partition, infos: Infos, s: nat)
    requires Valid(p, infos)
    ensures s in p.Live() <==> exists k :: k in p.expirations && s in p.expirations[k].All()
    ensures forall j, k :: j in p.expirations && k in p.expirations ==>
              s in p.expirations[j].All() && s in p.expirations[k].All() ==> j == k
    ensures forall k :: k in p.expirations ==> !(s in p.expirations[k].onTime && s in p.expirations[k].early)
    ensures s in p.Live() - p.faults ==> OnTimeAt(p.expirations, infos[s], s)
  {
    var q := p.expirations;
    ScheduledIsMentioned(q, s);
    forall j, k | j in q && k in q && s in q[j].All() && s in q[k].All() ensures j == k {
      assert OnTimeAt(q, j, s) || EarlyAt(q, j, s);
      assert OnTimeAt(q, k, s) || EarlyAt(q, k, s);
    }
    forall k | k in q ensures !(s in q[k].onTime && s in q[k].early) {
      assert OnTimeAt(q, k, s) == (s in q[k].onTime) && EarlyAt(q, k, s) == (s in q[k].early);
    }
  }

  // ---------- adding sectors ----------

  lemma {:induction false} AddActiveAt(q: Queue, items: set<SectorInfo>, k: nat, s: nat)
    ensures OnTimeAt(AddActive(q, items), k, s) <==> OnTimeAt(q, k, s) || SectorInfo(s, k) in items
    ensures EarlyAt(AddActive(q, items), k, s) <==> EarlyAt(q, k, s)
  {
    var q' := AddActive(q, items);
    if SectorInfo(s, k) in items {
      assert SectorInfo(s, k).expiration in (set i | i in items :: i.expiration);
      assert k in q' && s in At(items, k);
    }
    if k in q' && s in At(items, k) {
      var i :| i in items && i.expiration == k && i.number == s;
      assert i == SectorInfo(s, k);
    }
  }

  ghost predicate Known(infos: Infos, items: seq<SectorInfo>) {
    forall i :: i in items ==> i.number in infos && infos[i.number] == i.expiration
  }

  /** Adding succeeds exactly for distinct numbers that are new to the partition. */
  lemma {:induction false} AddSectorsKeeps(p: Partition, infos: Infos, items: seq<SectorInfo>)
    requires Valid(p, infos) && Known(infos, items)
    ensures AddSectors(p, items).Ok? <==>
              (forall i :: 0 <= i < |items| ==> items[i].number !in p.sectors)
              && (forall i, j :: 0 <= i < j < |items| ==> items[i].number != items[j].number)
    ensures AddSectors(p, items).Ok? ==>
              var p' := AddSectors(p, items).value;
              Valid(p', infos) && p'.Live() == p.Live() + Numbers(items) && p'.faults == p.faults
  {
    if AddSectors(p, items).Ok? {
      var p' := AddSectors(p, items).value;
      var added := set i | i in items;
      var q, q' := p.expirations, p'.expirations;
      forall s | s in Numbers(items) ensures s in infos && s !in p.sectors {
        var i :| i in items && i.number == s;
        var n :| 0 <= n < |items| && items[n] == i;
        assert items[n].number !in p.sectors;
      }
      forall k, s ensures OnTimeAt(q', k, s) <==> OnTimeAt(q, k, s) || SectorInfo(s, k) in items
        ensures EarlyAt(q', k, s) <==> EarlyAt(q, k, s)
      {
        AddActiveAt(q, added, k, s);
      }
      assert p'.Live() == p.Live() + Numbers(items);
      assert forall k, s :: SectorInfo(s, k) in items ==> s in Numbers(items);
      PlacedWithNew(p, infos, items, q');
      forall s ensures s in p'.Live() <==> Scheduled(q', s) {
        AddedCovers(p, infos, items, q', s);
      }
    }
  }

  lemma {:induction false} PlacedWithNew(p: Partition, infos: Infos, items: seq<SectorInfo>, q': Queue)
    requires Valid(p, infos) && Known(infos, items)
    requires forall k, s :: SectorInfo(s, k) in items ==> s !in p.sectors
    requires forall k, s :: OnTimeAt(q', k, s) <==> OnTimeAt(p.expirations, k, s) || SectorInfo(s, k) in items
    requires forall k, s :: EarlyAt(q', k, s) <==> EarlyAt(p.expirations, k, s)
    ensures Placed(q', infos, p.faults)
  {
    var q := p.expirations;
    forall k, s | OnTimeAt(q', k, s) ensures s in infos && k == infos[s] {
      if SectorInfo(s, k) in items { assert SectorInfo(s, k).number in infos; }
    }
    forall j, k, s | EarlyAt(q', j, s) ensures !OnTimeAt(q', k, s) {
      assert EarlyAt(q, j, s) && Scheduled(q, s);
      assert s in p.Live();
    }
  }

  lemma {:induction false} AddedCovers(p: Partition, infos: Infos, items: seq<SectorInfo>, q': Queue, s: nat)
    requires Valid(p, infos)
    requires forall k, s :: OnTimeAt(q', k, s) <==> OnTimeAt(p.expirations, k, s) || SectorInfo(s, k) in items
    requires forall k, s :: EarlyAt(q', k, s) <==> EarlyAt(p.expirations, k, s)
    ensures Scheduled(q', s) <==> s in p.Live() || s in Numbers(items)
  {
    var q := p.expirations;
    if s in p.Live() {
      var k :| OnTimeAt(q, k, s) || EarlyAt(q, k, s);
      assert OnTimeAt(q', k, s) || EarlyAt(q', k, s);
    }
    if s in Numbers(items) {
      var i :| i in items && i.number == s;
      assert i == SectorInfo(s, i.expiration);
      assert OnTimeAt(q', i.expiration, s);
    }
    if Scheduled(q', s) {
      var k :| OnTimeAt(q', k, s) || EarlyAt(q', k, s);
      if SectorInfo(s, k) in items { assert s in Numbers(items); }
      else { assert OnTimeAt(q, k, s) || EarlyAt(q, k, s); }
    }
  }

  // ---------- searching ----------

  /** Every wanted sector is on time under its own expiration. */
  ghost predicate AllActive(q: Queue, wanted: Infos) {
    forall s :: s in wanted ==> OnTimeAt(q, wanted[s], s)
  }

  /** On a well-placed queue the search succeeds for active sectors and groups them by expiration. */
  lemma {:induction false} FindActive(q: Queue, infos: Infos, faults: set<nat>, wanted: Infos)
    requires Placed(q, infos, faults) && wanted.Keys <= infos.Keys
             && (forall s :: s in wanted ==> wanted[s] == infos[s])
    requires AllActive(q, wanted)
    ensures Find(q, wanted).Ok?
    ensures forall k, s :: (k in Find(q, wanted).value && s in Find(q, wanted).value[k]) <==>
                (s in wanted && wanted[s] == k)
  {
    forall k | k in wanted.Values ensures k in q {
      var s :| s in wanted && wanted[s] == k;
      assert OnTimeAt(q, k, s);
    }
    forall s | s in wanted ensures OnTimeSomewhere(q, s) {
      assert OnTimeAt(q, wanted[s], s);
    }
    var groups := Find(q, wanted).value;
    forall k, s ensures (k in groups && s in groups[k]) <==> (s in wanted && wanted[s] == k) {
      if s in wanted && wanted[s] == k {
        assert OnTimeAt(q, k, s);
        forall j | j in q && Precedes(wanted.Values, j, k) ensures s !in q[j].onTime {
          assert !OnTimeAt(q, j, s);
        }
        assert s in Group(q, wanted, k);
      }
      if k in groups && s in groups[k] {
        assert s in Group(q, wanted, k) && OnTimeAt(q, k, s);
      }
    }
  }

  /** The search fails as soon as one wanted sector is nowhere on time. */
  lemma {:induction false} FindMissing(q: Queue, wanted: Infos, s: nat)
    requires s in wanted && forall k :: !OnTimeAt(q, k, s)
    ensures Find(q, wanted).Err?
  {
    if OnTimeSomewhere(q, s) {
      var k :| k in q && s in q[k].onTime;
      assert OnTimeAt(q, k, s);
    }
  }

  lemma {:induction false} TakeAt(q: Queue, groups: map<nat, set<nat>>, k: nat, s: nat)
    ensures OnTimeAt(Take(q, groups), k, s) <==> OnTimeAt(q, k, s) && !(k in groups && s in groups[k])
    ensures EarlyAt(Take(q, groups), k, s) <==> EarlyAt(q, k, s)
  {
    if k in q && k in groups {
      var rest := ExpirationSet(q[k].onTime - groups[k], q[k].early);
      assert OnTimeAt(q, k, s) && s !in groups[k] ==> s in rest.onTime;
    }
  }

  lemma {:induction false} AddToAt(q: Queue, block: nat, onTime: set<nat>, early: set<nat>, k: nat, s: nat)
    ensures OnTimeAt(AddTo(q, block, onTime, early), k, s) <==> OnTimeAt(q, k, s) || (k == block && s in onTime)
    ensures EarlyAt(AddTo(q, block, onTime, early), k, s) <==> EarlyAt(q, k, s) || (k == block && s in early)
  {
  }

  // ---------- faults ----------

  /** Fault rescheduling moves exactly the wanted sectors that expire after the fault block. */
  lemma {:induction false} FaultsAt(q: Queue, infos: Infos, faults: set<nat>, wanted: Infos, block: nat, k: nat, s: nat)
    requires Placed(q, infos, faults) && wanted.Keys <= infos.Keys
             && (forall s :: s in wanted ==> wanted[s] == infos[s])
    requires AllActive(q, wanted)
    ensures RescheduleAsFaults(q, block, wanted).Ok?
    ensures var q' := RescheduleAsFaults(q, block, wanted).value;
            && (OnTimeAt(q', k, s) <==> OnTimeAt(q, k, s) && !(s in wanted && infos[s] > block))
            && (EarlyAt(q', k, s) <==> EarlyAt(q, k, s) || (k == block && s in wanted && infos[s] > block))
  {
    FindActive(q, infos, faults, wanted);
    var groups := Find(q, wanted).value;
    var late := Later(groups, block);
    TakeAt(q, late, k, s);
    AddToAt(Take(q, late), block, {}, Members(late), k, s);
    assert s in Members(late) <==> s in wanted && wanted[s] > block by {
      if s in wanted && wanted[s] > block { assert wanted[s] in groups && s in late[wanted[s]]; }
    }
    assert (k in late && s in late[k]) <==> (s in wanted && wanted[s] == k && k > block);
  }

  /** Recording faults succeeds exactly when every declared sector the provider knows is in the partition. */
  lemma {:induction false} RecordFaultsKeeps(p: Partition, infos: Infos, numbers: set<nat>, block: nat)
    requires Valid(p, infos)
    ensures RecordFaults(p, infos, numbers, block).Ok? <==> numbers * infos.Keys <= p.sectors
    ensures RecordFaults(p, infos, numbers, block).Ok? ==>
              var (p', declared) := RecordFaults(p, infos, numbers, block).value;
              && Valid(p', infos)
              && p'.faults == p.faults + (numbers * p.Live())
              && p'.recoveries == p.recoveries - numbers
              && p'.unproven == p.unproven - numbers
              && p'.Live() == p.Live()
              && declared * infos.Keys == numbers * p.Live() - p.faults
  {
    var q := p.expirations;
    var newFaults := NewFaults(p, numbers);
    var wanted := Restrict(infos, newFaults);
    if !(numbers * infos.Keys <= p.sectors) {
      var s :| s in numbers * infos.Keys && s !in p.sectors;
      assert s in wanted;
      assert !Scheduled(q, s);
      FindMissing(q, wanted, s);
    } else {
      assert wanted.Keys == numbers * p.Live() - p.faults;
      forall s | s in wanted ensures OnTimeAt(q, wanted[s], s) { ExactlyOnce(p, infos, s); }
      if wanted == map[] {
        assert p.faults + numbers * p.Live() == p.faults;
        assert p.unproven - numbers == p.unproven;
      } else {
        FaultsPlaced(p, infos, wanted, block);
      }
    }
  }

  lemma {:induction false} FaultsPlaced(p: Partition, infos: Infos, wanted: Infos, block: nat)
    requires Valid(p, infos) && wanted.Keys <= p.Live() - p.faults
             && (forall s :: s in wanted ==> s in infos && wanted[s] == infos[s])
    requires AllActive(p.expirations, wanted)
    ensures AddFaults(p, wanted, block).Ok?
    ensures var p' := AddFaults(p, wanted, block).value;
            Placed(p'.expirations, infos, p'.faults) && Covers(p'.expirations, p'.Live())
  {
    var q := p.expirations;
    FaultsAt(q, infos, p.faults, wanted, block, 0, 0);
    var q' := RescheduleAsFaults(q, block, wanted).value;
    forall k, s
      ensures OnTimeAt(q', k, s) <==> OnTimeAt(q, k, s) && !(s in wanted && infos[s] > block)
      ensures EarlyAt(q', k, s) <==> EarlyAt(q, k, s) || (k == block && s in wanted && infos[s] > block)
    {
      FaultsAt(q, infos, p.faults, wanted, block, k, s);
    }
    forall s ensures Scheduled(q, s) <==> Scheduled(q', s) {
      if k :| OnTimeAt(q, k, s) || EarlyAt(q, k, s) {
        assert OnTimeAt(q', k, s) || EarlyAt(q', k, s) || EarlyAt(q', block, s);
      }
      if k :| OnTimeAt(q', k, s) || EarlyAt(q', k, s) {
        assert OnTimeAt(q, k, s) || EarlyAt(q, k, s) || OnTimeAt(q, wanted[s], s);
      }
    }
  }

  /** Declaring a known sector of another partition faulty is always rejected. */
  lemma {:induction false} ForeignFaultRejected(p: Partition, infos: Infos, numbers: set<nat>, block: nat, s: nat)
    requires Valid(p, infos) && s in numbers && s in infos && s !in p.sectors
    ensures RecordFaults(p, infos, numbers, block) == Err(FailedToAddFaults)
  {
    RecordFaultsKeeps(p, infos, numbers, block);
    assert s in numbers * infos.Keys;
  }

  // ---------- recovery ----------

  ghost predicate NoEmptyEntries(q: Queue) {
    forall k :: k in q ==> !q[k].IsEmpty()
  }

  lemma {:induction false} RecoveredEarly(q: Queue, infos: Infos, faults: set<nat>, numbers: set<nat>, k: nat, s: nat)
    requires Placed(q, infos, faults) && k in q
    ensures s in Recovered(q, numbers, k) <==> EarlyAt(q, k, s) && s in numbers
  {
    if EarlyAt(q, k, s) && s in numbers {
      assert !OnTimeAt(q, k, s);
      forall j | j in q && j < k ensures s !in q[j].All() {
        assert !OnTimeAt(q, j, s) && !EarlyAt(q, j, s);
      }
      assert UnseenBefore(q, s, k);
    }
  }

  lemma {:induction false} WithoutEarlyAt(q: Queue, infos: Infos, faults: set<nat>, numbers: set<nat>, k: nat, s: nat)
    requires Placed(q, infos, faults)
    ensures OnTimeAt(WithoutEarly(q, numbers), k, s) <==> OnTimeAt(q, k, s)
    ensures EarlyAt(WithoutEarly(q, numbers), k, s) <==> EarlyAt(q, k, s) && s !in numbers
  {
    if k in q {
      RecoveredEarly(q, infos, faults, numbers, k, s);
      var rest := ExpirationSet(q[k].onTime, q[k].early - Recovered(q, numbers, k));
      assert OnTimeAt(q, k, s) ==> s in rest.onTime;
      assert EarlyAt(q, k, s) && s !in numbers ==> s in rest.early;
    }
  }

  /** Recovery takes the early entries of the recovered sectors and puts them on time at their expiration. */
  lemma {:induction false} RecoveryAt(q: Queue, infos: Infos, faults: set<nat>, numbers: set<nat>, k: nat, s: nat)
    requires Placed(q, infos, faults) && numbers <= infos.Keys && forall s :: s in numbers ==> Scheduled(q, s)
    ensures RescheduleRecovered(q, infos, numbers).Ok?
    ensures var q' := RescheduleRecovered(q, infos, numbers).value;
            && (OnTimeAt(q', k, s) <==> OnTimeAt(q, k, s) || (s in numbers && k == infos[s]))
            && (EarlyAt(q', k, s) <==> EarlyAt(q, k, s) && s !in numbers)
  {
    forall s | s in numbers ensures Mentioned(q, s) { ScheduledIsMentioned(q, s); }
    var moved := Rescheduled(q, infos, numbers);
    WithoutEarlyAt(q, infos, faults, numbers, k, s);
    AddActiveAt(WithoutEarly(q, numbers), moved, k, s);
    if s in numbers && k == infos[s] && !OnTimeAt(q, k, s) {
      var j :| OnTimeAt(q, j, s) || EarlyAt(q, j, s);
      RecoveredEarly(q, infos, faults, numbers, j, s);
      assert SectorInfo(s, infos[s]) in moved;
    }
    if SectorInfo(s, k) in moved {
      var j, t :| j in q && t in Recovered(q, numbers, j) && SectorInfo(t, infos[t]) == SectorInfo(s, k);
    }
  }

  lemma {:induction false} RecoveryNoEmpty(q: Queue, infos: Infos, numbers: set<nat>)
    requires numbers <= infos.Keys && RescheduleRecovered(q, infos, numbers).Ok?
    ensures NoEmptyEntries(RescheduleRecovered(q, infos, numbers).value)
  {
    var moved := Rescheduled(q, infos, numbers);
    var base := WithoutEarly(q, numbers);
    var q' := AddActive(base, moved);
    forall k | k in q' ensures !q'[k].IsEmpty() {
      if k in base {
        assert !base[k].IsEmpty();
      } else {
        var i :| i in moved && i.expiration == k;
        assert i.number in At(moved, k);
      }
    }
  }

  /** Proving a partition always succeeds: recovering sectors are healthy again and nothing is unproven. */
  lemma {:induction false} ProveKeeps(p: Partition, infos: Infos)
    requires Valid(p, infos)
    ensures p.recoveries <= infos.Keys && Prove(p, infos).Ok?
    ensures var p' := Prove(p, infos).value;
            && Valid(p', infos) && NoEmptyEntries(p'.expirations)
            && p'.faults == p.faults - p.recoveries && p'.recoveries == {} && p'.unproven == {} && p'.Live() == p.Live()
  {
    var q, numbers := p.expirations, p.recoveries;
    RecoveryAt(q, infos, p.faults, numbers, 0, 0);
    var q' := RescheduleRecovered(q, infos, numbers).value;
    RecoveryNoEmpty(q, infos, numbers);
    forall k, s
      ensures OnTimeAt(q', k, s) <==> OnTimeAt(q, k, s) || (s in numbers && k == infos[s])
      ensures EarlyAt(q', k, s) <==> EarlyAt(q, k, s) && s !in numbers
    {
      RecoveryAt(q, infos, p.faults, numbers, k, s);
    }
    forall s ensures Scheduled(q, s) <==> Scheduled(q', s) {
      if k :| OnTimeAt(q, k, s) || EarlyAt(q, k, s) {
        assert OnTimeAt(q', k, s) || EarlyAt(q', k, s) || (s in numbers && OnTimeAt(q', infos[s], s));
      }
      if k :| OnTimeAt(q', k, s) || EarlyAt(q', k, s) {
        assert OnTimeAt(q, k, s) || EarlyAt(q, k, s) || s in numbers;
      }
    }
    assert Placed(q', infos, p.faults - numbers);
  }

  lemma {:induction false} DeclareRecoveredKeeps(p: Partition, infos: Infos, numbers: set<nat>)
    requires Valid(p, infos)
    ensures Valid(DeclareFaultsRecovered(p, numbers), infos)
  {
  }

  // ---------- termination ----------

  lemma {:induction false} StrikeAt(q: Queue, numbers: set<nat>, k: nat, s: nat)
    requires forall k, s :: !(OnTimeAt(q, k, s) && EarlyAt(q, k, s))
    ensures OnTimeAt(Strike(q, numbers), k, s) <==> OnTimeAt(q, k, s) && s !in numbers
    ensures EarlyAt(Strike(q, numbers), k, s) <==> EarlyAt(q, k, s) && s !in numbers
  {
    assert !(OnTimeAt(q, k, s) && EarlyAt(q, k, s));
  }

  ghost predicate OnTimeSomeBlock(q: Queue, s: nat) { exists k :: OnTimeAt(q, k, s) }

  ghost predicate EarlySomeBlock(q: Queue, s: nat) { exists k :: EarlyAt(q, k, s) }

  /** Removal strikes exactly the given scheduled sectors and reports the side each was on. */
  lemma {:induction false} RemovalAt(p: Partition, infos: Infos, numbers: set<nat>)
    requires Valid(p, infos) && numbers <= p.Live()
    ensures RemoveSectors(p.expirations, Restrict(infos, numbers), p.faults).Ok?
    ensures var (q', removed) := RemoveSectors(p.expirations, Restrict(infos, numbers), p.faults).value;
            && (forall k, s :: OnTimeAt(q', k, s) <==> OnTimeAt(p.expirations, k, s) && s !in numbers)
            && (forall k, s :: EarlyAt(q', k, s) <==> EarlyAt(p.expirations, k, s) && s !in numbers)
            && (forall s :: s in removed.onTime <==> s in numbers && OnTimeSomeBlock(p.expirations, s))
            && (forall s :: s in removed.early <==> s in numbers && EarlySomeBlock(p.expirations, s))
  {
    var q, wanted := p.expirations, Restrict(infos, numbers);
    var healthy := Healthy(wanted, p.faults);
    var faulty := wanted.Keys * p.faults;
    forall s | s in healthy ensures OnTimeAt(q, healthy[s], s) { ExactlyOnce(p, infos, s); }
    FindActive(q, infos, p.faults, healthy);
    var groups := Find(q, healthy).value;
    var active := Take(q, groups);
    forall k, s
      ensures OnTimeAt(active, k, s) <==> OnTimeAt(q, k, s) && s !in healthy
      ensures EarlyAt(active, k, s) <==> EarlyAt(q, k, s)
    {
      TakeAt(q, groups, k, s);
    }
    forall s | s in faulty ensures Mentioned(active, s) {
      var k :| OnTimeAt(q, k, s) || EarlyAt(q, k, s);
      assert OnTimeAt(active, k, s) || EarlyAt(active, k, s);
      ScheduledIsMentioned(active, s);
    }
    var q' := Strike(active, faulty);
    forall k, s
      ensures OnTimeAt(q', k, s) <==> OnTimeAt(q, k, s) && s !in numbers
      ensures EarlyAt(q', k, s) <==> EarlyAt(q, k, s) && s !in numbers
    {
      StrikeAt(active, faulty, k, s);
      assert s in numbers && s !in p.faults ==> s in healthy;
    }
    forall s ensures s in Members(groups) <==> s in healthy {
      if s in healthy { assert healthy[s] in groups && s in groups[healthy[s]]; }
    }
    StruckSides(active, faulty);
    forall s ensures s in numbers && OnTimeSomeBlock(q, s)
        <==> s in healthy || (s in faulty && OnTimeSomeBlock(active, s)) {
      if s in healthy { assert OnTimeAt(q, healthy[s], s); }
      else if k :| OnTimeAt(q, k, s) { assert OnTimeAt(active, k, s); }
    }
    forall s ensures s in numbers && EarlySomeBlock(q, s) <==> s in faulty && EarlySomeBlock(active, s) {
      if k :| EarlyAt(q, k, s) { assert EarlyAt(active, k, s) && s in p.faults; }
      if k :| EarlyAt(active, k, s) { assert EarlyAt(q, k, s); }
    }
  }

  lemma {:induction false} StruckSides(q: Queue, numbers: set<nat>)
    requires forall k, s :: !(OnTimeAt(q, k, s) && EarlyAt(q, k, s))
    ensures forall s :: s in StruckOnTime(q, numbers) <==> s in numbers && OnTimeSomeBlock(q, s)
    ensures forall s :: s in StruckEarly(q, numbers) <==> s in numbers && EarlySomeBlock(q, s)
  {
    forall s ensures s in StruckOnTime(q, numbers) <==> s in numbers && OnTimeSomeBlock(q, s) {
      if k :| OnTimeAt(q, k, s) && s in numbers { assert k in q && s in q[k].onTime * numbers; }
      if s in StruckOnTime(q, numbers) {
        var k :| k in q && s in q[k].onTime * numbers;
        assert OnTimeAt(q, k, s);
      }
    }
    forall s ensures s in StruckEarly(q, numbers) <==> s in numbers && EarlySomeBlock(q, s) {
      if k :| EarlyAt(q, k, s) && s in numbers {
        assert !OnTimeAt(q, k, s);
        assert k in q && s in (q[k].early - q[k].onTime) * numbers;
      }
      if s in StruckEarly(q, numbers) {
        var k :| k in q && s in (q[k].early - q[k].onTime) * numbers;
        assert EarlyAt(q, k, s);
      }
    }
  }

  /** Termination succeeds exactly for live sectors, and removes exactly those. */
  lemma {:induction false} TerminateKeeps(p: Partition, infos: Infos, block: nat, numbers: set<nat>)
    requires Valid(p, infos)
    ensures TerminateSectors(p, block, infos, numbers).Ok? <==> numbers <= p.Live()
    ensures !(numbers <= p.Live()) ==> TerminateSectors(p, block, infos, numbers) == Err(SectorsNotLive)
    ensures TerminateSectors(p, block, infos, numbers).Ok? ==>
              var (p', removed) := TerminateSectors(p, block, infos, numbers).value;
              && Valid(p', infos)
              && removed.All() == numbers && removed.onTime !! removed.early
              && p'.sectors == p.sectors && p'.Live() == p.Live() - numbers
              && p'.faults == p.faults - numbers && p'.recoveries == p.recoveries - numbers
              && p'.unproven == p.unproven - numbers
              && p'.earlyTerminations == p.earlyTerminations[block := numbers]
  {
    if numbers <= p.Live() {
      RemovalAt(p, infos, numbers);
      var q := p.expirations;
      var (p', removed) := TerminateSectors(p, block, infos, numbers).value;
      var q' := p'.expirations;
      forall s ensures s in removed.All() <==> s in numbers {
        if s in numbers { var k :| OnTimeAt(q, k, s) || EarlyAt(q, k, s); }
      }
      forall s | s in removed.onTime ensures s !in removed.early {
        var k :| OnTimeAt(q, k, s);
        assert !EarlySomeBlock(q, s);
      }
      assert removed.All() == numbers;
      StruckCovers(q, q', p.Live(), numbers);
      assert p'.Live() == p.Live() - numbers;
      assert Placed(q', infos, p'.faults);
    }
  }

  lemma {:induction false} StruckCovers(q: Queue, q': Queue, live: set<nat>, numbers: set<nat>)
    requires Covers(q, live)
    requires forall k, s :: OnTimeAt(q', k, s) <==> OnTimeAt(q, k, s) && s !in numbers
    requires forall k, s :: EarlyAt(q', k, s) <==> EarlyAt(q, k, s) && s !in numbers
    ensures Covers(q', live - numbers)
  {
    forall s ensures s in live - numbers <==> Scheduled(q', s) {
      if s in live - numbers {
        var k :| OnTimeAt(q, k, s) || EarlyAt(q, k, s);
        assert OnTimeAt(q', k, s) || EarlyAt(q', k, s);
      }
      if k :| OnTimeAt(q', k, s) || EarlyAt(q', k, s) { assert OnTimeAt(q, k, s) || EarlyAt(q, k, s); }
    }
  }

  // ---------- expiry ----------

  lemma {:induction false} DueAt(q: Queue, until: nat)
    ensures forall s: nat :: s in DueOnTime(q, until) <==> exists k: nat :: k <= until && OnTimeAt(q, k, s)
    ensures forall s: nat :: s in DueEarly(q, until) <==> exists k: nat :: k <= until && EarlyAt(q, k, s)
    ensures forall k: nat, s: nat :: OnTimeAt(After(q, until), k, s) <==> OnTimeAt(q, k, s) && k > until
    ensures forall k: nat, s: nat :: EarlyAt(After(q, until), k, s) <==> EarlyAt(q, k, s) && k > until
  {
    forall s: nat ensures s in DueOnTime(q, until) <==> exists k: nat :: k <= until && OnTimeAt(q, k, s) {
      if k: nat :| k <= until && OnTimeAt(q, k, s) { assert k in q && s in q[k].onTime; }
      if s in DueOnTime(q, until) { var k :| k in q && k <= until && s in q[k].onTime; assert OnTimeAt(q, k, s); }
    }
    forall s: nat ensures s in DueEarly(q, until) <==> exists k: nat :: k <= until && EarlyAt(q, k, s) {
      if k: nat :| k <= until && EarlyAt(q, k, s) { assert k in q && s in q[k].early; }
      if s in DueEarly(q, until) { var k :| k in q && k <= until && s in q[k].early; assert EarlyAt(q, k, s); }
    }
  }

  /** Expiry succeeds exactly when nothing is unproven or recovering.  A sector popped on time has
      reached its own expiration; one popped early was faulty and its early block, strictly before
      its expiration, has been reached. */
  lemma {:induction false} PopExpiredKeeps(p: Partition, infos: Infos, until: nat)
    requires Valid(p, infos)
    ensures PopExpiredSectors(p, until).Ok? <==> p.unproven == {} && p.recoveries == {}
    ensures PopExpiredSectors(p, until).Ok? ==>
              var (p', popped) := PopExpiredSectors(p, until).value;
              && Valid(p', infos)
              && popped.All() <= p.Live() && popped.onTime !! popped.early
              && p'.Live() == p.Live() - popped.All()
              && (forall s :: s in popped.onTime ==> infos[s] <= until)
              && (forall s :: s in popped.early ==>
                    s in p.faults && exists k: nat :: k <= until && k < infos[s] && EarlyAt(p.expirations, k, s))
              && (forall s :: s in p'.Live() ==> s in p.faults || infos[s] > until)
  {
    var q := p.expirations;
    DueAt(q, until);
    forall s | s in DueOnTime(q, until) || s in DueEarly(q, until) ensures s in p.Live() {
      assert Scheduled(q, s);
    }
    if p.unproven == {} && p.recoveries == {} {
      var (p', popped) := PopExpiredSectors(p, until).value;
      var q' := p'.expirations;
      assert popped.onTime !! popped.early;
      assert p'.Live() == p.Live() - popped.All();
      forall s ensures s in p'.Live() <==> Scheduled(q', s) {
        if s in p'.Live() {
          var k :| OnTimeAt(q, k, s) || EarlyAt(q, k, s);
          assert OnTimeAt(q', k, s) || EarlyAt(q', k, s);
        }
        if k :| OnTimeAt(q', k, s) || EarlyAt(q', k, s) {
          assert OnTimeAt(q, k, s) || EarlyAt(q, k, s);
          assert Scheduled(q, s);
        }
      }
      assert Placed(q', infos, p'.faults);
      forall s | s in p'.Live() && s !in p.faults ensures infos[s] > until { ExactlyOnce(p, infos, s); }
    }
  }

  // ---------- the pending early terminations ----------

  /** All sectors recorded as terminated early and not yet popped. */
  function Pending(p: Partition): set<nat> {
    set b, s | b in p.earlyTerminations && s in p.earlyTerminations[b] :: s
  }

  /** Recording replaces what the block held: nothing pending is lost exactly when that was nothing new. */
  lemma {:induction false} RecordingLoses(p: Partition, infos: Infos, block: nat, sectors: set<nat>)
    requires Valid(p, infos) && sectors <= p.Live()
    ensures var p' := p.(earlyTerminations := p.earlyTerminations[block := sectors]);
            Pending(p) + sectors <= Pending(p') <==>
              block !in p.earlyTerminations || p.earlyTerminations[block] == {}
  {
    var old', new' := p.earlyTerminations, p.earlyTerminations[block := sectors];
    var p' := p.(earlyTerminations := new');
    if block in old' && old'[block] != {} {
      var s :| s in old'[block];
      assert s in Pending(p) && s in p.terminated && s !in sectors;
      assert s !in Pending(p');
    } else {
      forall s | s in Pending(p) + sectors ensures s in Pending(p') {
        if s in sectors { assert block in new' && s in new'[block]; }
        else { var b :| b in old' && s in old'[b]; assert b in new' && s in new'[b]; }
      }
    }
  }
}
