/** What each operation does to one partition, said of its sets and of where its queue has every sector. */
module PartitionEffects {
  import opened Results
  import opened ExpirationQueue
  import opened Partitions
  import opened PartitionInvariant

  /** Sector s stands at k as it did before. */
  ghost predicate SameAt(q: Queue, q': Queue, k: nat, s: nat) {
    OnTimeAt(q', k, s) == OnTimeAt(q, k, s) && EarlyAt(q', k, s) == EarlyAt(q, k, s)
  }

  // ---------- new sectors ----------

  ghost function NumbersOf(items: set<SectorInfo>): set<nat> {
    set x | x in items :: x.number
  }

  ghost function Elements(items: seq<SectorInfo>): set<SectorInfo> {
    set x | x in items
  }

  /** The items are in the partition, unproven and due at their own expirations; nothing else has changed. */
  ghost predicate Added(p: Partition, p': Partition, items: set<SectorInfo>) {
    && p'.sectors == p.sectors + NumbersOf(items)
    && p'.unproven == p.unproven + NumbersOf(items)
    && p'.faults == p.faults && p'.recoveries == p.recoveries && p'.terminated == p.terminated
    && p'.earlyTerminations == p.earlyTerminations
    && forall k: nat, s: nat ::
         && (OnTimeAt(p'.expirations, k, s) <==> OnTimeAt(p.expirations, k, s) || SectorInfo(s, k) in items)
         && (EarlyAt(p'.expirations, k, s) <==> EarlyAt(p.expirations, k, s))
  }

  lemma {:induction false} AddingAdds(p: Partition, items: seq<SectorInfo>, p': Partition)
    requires Partitions.AddSectors(p, items) == Ok(p')
    ensures Added(p, p', Elements(items))
  {
    var all := Elements(items);
    forall k: nat, s: nat
      ensures OnTimeAt(p'.expirations, k, s) <==> OnTimeAt(p.expirations, k, s) || SectorInfo(s, k) in all
      ensures EarlyAt(p'.expirations, k, s) <==> EarlyAt(p.expirations, k, s)
    {
      AddActiveAt(p.expirations, all, k, s);
    }
    assert Numbers(items) == NumbersOf(all);
  }

  // ---------- faults ----------

  /** Sectors due after the block wait for it early and nowhere else, the others stay due on time. */
  ghost predicate Overtaken(q: Queue, q': Queue, infos: Infos, faulty: set<nat>, block: nat) {
    forall k: nat, s: nat ::
      if s in faulty then
        && s in infos
        && (OnTimeAt(q', k, s) <==> k == infos[s] && infos[s] <= block)
        && (EarlyAt(q', k, s) <==> k == block && block < infos[s])
      else SameAt(q, q', k, s)
  }

  /** The named live sectors are faulty and no longer recovering; those that become faulty are rescheduled. */
  ghost predicate Faulted(p: Partition, p': Partition, infos: Infos, numbers: set<nat>, block: nat) {
    && p'.faults == p.faults + numbers * p.Live()
    && p'.recoveries == p.recoveries - numbers
    && p'.unproven == p.unproven - numbers
    && p'.sectors == p.sectors && p'.terminated == p.terminated && p'.earlyTerminations == p.earlyTerminations
    && Overtaken(p.expirations, p'.expirations, infos, numbers * p.Live() - p.faults, block)
  }

  lemma {:induction false} DeclaringFaults(p: Partition, infos: Infos, numbers: set<nat>, block: nat, p': Partition)
    requires Valid(p, infos)
    requires var r := Partitions.RecordFaults(p, infos, numbers, block); r.Ok? && r.value.0 == p'
    ensures Faulted(p, p', infos, numbers, block)
  {
    RecordFaultsKeeps(p, infos, numbers, block);
    var q, q' := p.expirations, p'.expirations;
    var faulty := numbers * p.Live() - p.faults;
    var wanted := Restrict(infos, NewFaults(p, numbers));
    assert wanted.Keys == faulty by {
      assert forall s :: s in numbers && s in infos ==> s in numbers * infos.Keys;
    }
    forall s | s in wanted ensures OnTimeAt(q, wanted[s], s) { ExactlyOnce(p, infos, s); }
    forall k: nat, s: nat
      ensures if s in faulty then
                && s in infos
                && (OnTimeAt(q', k, s) <==> k == infos[s] && infos[s] <= block)
                && (EarlyAt(q', k, s) <==> k == block && block < infos[s])
              else SameAt(q, q', k, s)
    {
      FaultsAt(q, infos, p.faults, wanted, block, k, s);
      if s in faulty { assert OnTimeAt(q, infos[s], s); }
    }
  }

  // ---------- proofs ----------

  /** Recovered sectors are due on time at their own expirations and nowhere else. */
  ghost predicate Restored(q: Queue, q': Queue, infos: Infos, recovered: set<nat>) {
    forall k: nat, s: nat ::
      if s in recovered then s in infos && (OnTimeAt(q', k, s) <==> k == infos[s]) && !EarlyAt(q', k, s)
      else SameAt(q, q', k, s)
  }

  /** Declared recoveries are faulty no more, and nothing waits for a proof. */
  ghost predicate Proven(p: Partition, p': Partition, infos: Infos) {
    && p'.faults == p.faults - p.recoveries && p'.recoveries == {} && p'.unproven == {}
    && p'.sectors == p.sectors && p'.terminated == p.terminated && p'.earlyTerminations == p.earlyTerminations
    && Restored(p.expirations, p'.expirations, infos, p.recoveries)
  }

  lemma {:induction false} ProvingProves(p: Partition, infos: Infos, p': Partition)
    requires Valid(p, infos) && p.recoveries <= infos.Keys && Prove(p, infos) == Ok(p')
    ensures Proven(p, p', infos)
  {
    ProveKeeps(p, infos);
    var q, q', numbers := p.expirations, p'.expirations, p.recoveries;
    forall k: nat, s: nat
      ensures if s in numbers then s in infos && (OnTimeAt(q', k, s) <==> k == infos[s]) && !EarlyAt(q', k, s)
              else SameAt(q, q', k, s)
    {
      RecoveryAt(q, infos, p.faults, numbers, k, s);
    }
  }

  // ---------- terminations ----------

  ghost predicate Struck(q: Queue, q': Queue, numbers: set<nat>) {
    forall k: nat, s: nat ::
      if s in numbers then !OnTimeAt(q', k, s) && !EarlyAt(q', k, s) else SameAt(q, q', k, s)
  }

  /** The named sectors are terminated, on record for the block, and in no other set and no queue entry. */
  ghost predicate Ended(p: Partition, p': Partition, numbers: set<nat>, block: nat) {
    && p'.sectors == p.sectors && p'.terminated == p.terminated + numbers
    && p'.faults == p.faults - numbers && p'.recoveries == p.recoveries - numbers
    && p'.unproven == p.unproven - numbers
    && p'.earlyTerminations == p.earlyTerminations[block := numbers]
    && Struck(p.expirations, p'.expirations, numbers)
  }

  lemma {:induction false} TerminatingEnds(p: Partition, infos: Infos, block: nat, numbers: set<nat>, p': Partition)
    requires Valid(p, infos)
    requires var r := Partitions.TerminateSectors(p, block, infos, numbers); r.Ok? && r.value.0 == p'
    ensures Ended(p, p', numbers, block)
  {
    TerminateKeeps(p, infos, block, numbers);
    RemovalAt(p, infos, numbers);
  }

  // ---------- expiry ----------

  /** Some block up to `until` has s on time, or early. */
  ghost predicate FallsDue(q: Queue, until: nat, s: nat) {
    exists k: nat :: k <= until && OnTimeAt(q, k, s)
  }

  ghost predicate FallsEarly(q: Queue, until: nat, s: nat) {
    exists k: nat :: k <= until && EarlyAt(q, k, s)
  }

  /** The queue has nothing up to `until` and stands as it did after it. */
  ghost predicate Cut(q: Queue, q': Queue, until: nat) {
    forall k: nat, s: nat :: if k <= until then !OnTimeAt(q', k, s) && !EarlyAt(q', k, s) else SameAt(q, q', k, s)
  }

  /** What was due is terminated and in no other set.  What was early is on record for the block if this was
      the only visit; a second visit finds nothing and replaces the record. */
  ghost predicate Lapsed(p: Partition, p': Partition, until: nat, once: bool) {
    && p'.sectors == p.sectors && p'.unproven == p.unproven && p'.recoveries == p.recoveries
    && (forall s: nat :: s in p'.terminated <==>
          s in p.terminated || FallsDue(p.expirations, until, s) || FallsEarly(p.expirations, until, s))
    && (forall s: nat :: s in p'.faults <==>
          s in p.faults && !FallsDue(p.expirations, until, s) && !FallsEarly(p.expirations, until, s))
    && until in p'.earlyTerminations
    && p'.earlyTerminations == p.earlyTerminations[until := p'.earlyTerminations[until]]
    && (forall s: nat :: s in p'.earlyTerminations[until] <==> once && FallsEarly(p.expirations, until, s))
    && Cut(p.expirations, p'.expirations, until)
  }

  /** Exactly what has fallen due is popped, on the side it stood on. */
  ghost predicate PopsDue(q: Queue, until: nat, popped: ExpirationSet) {
    && (forall s: nat :: s in popped.onTime <==> FallsDue(q, until, s))
    && (forall s: nat :: s in popped.early <==> FallsEarly(q, until, s))
  }

  lemma {:induction false} ExpiringPops(p: Partition, until: nat, p': Partition, popped: ExpirationSet)
    requires Partitions.PopExpiredSectors(p, until) == Ok((p', popped))
    ensures Lapsed(p, p', until, true) && PopsDue(p.expirations, until, popped)
  {
    DueAt(p.expirations, until);
  }

  lemma {:induction false} LapsedTwice(p: Partition, p1: Partition, p2: Partition, until: nat, once: bool,
                                       again: ExpirationSet)
    requires Lapsed(p, p1, until, once) && Lapsed(p1, p2, until, true) && PopsDue(p1.expirations, until, again)
    ensures again.onTime == {} && again.early == {} && Lapsed(p, p2, until, false)
  {
    assert forall s: nat :: !FallsDue(p1.expirations, until, s) && !FallsEarly(p1.expirations, until, s);
    forall k: nat, s: nat
      ensures if k <= until then !OnTimeAt(p2.expirations, k, s) && !EarlyAt(p2.expirations, k, s)
              else SameAt(p.expirations, p2.expirations, k, s)
    {
      assert k > until ==> SameAt(p.expirations, p1.expirations, k, s) && SameAt(p1.expirations, p2.expirations, k, s);
    }
  }
}
