/** Whole runs of partition operations: the invariant in every reachable state, the cause of every
    early expiry, and the round trip from healthy through faulty and recovering back to healthy. */
module PartitionRun {
  import opened ExpirationQueue
  import opened Partitions
  import opened PartitionInvariant
  import opened EarlyTerminations

  datatype World = World(infos: Infos, p: Partition)

  datatype Op =
    | Register(info: SectorInfo)
    | Add(items: seq<SectorInfo>)
    | Fault(numbers: set<nat>, block: nat)
    | DeclareRecovered(numbers: set<nat>)
    | Submit
    | Terminate(numbers: set<nat>, block: nat)
    | Expire(until: nat)
    | PopEarly(max: nat)

  /** One operation.  A failed one is rolled back, which leaves the world as it was. */
  ghost function Step(w: World, op: Op): World {
    match op
    case Register(info) => if info.number in w.infos then w else w.(infos := w.infos[info.number := info.expiration])
    case Add(items) =>
      var r := AddSectors(w.p, items);
      if Known(w.infos, items) && r.Ok? then w.(p := r.value) else w
    case Fault(numbers, block) =>
      var r := RecordFaults(w.p, w.infos, numbers, block);
      if r.Ok? then w.(p := r.value.0) else w
    case DeclareRecovered(numbers) => w.(p := DeclareFaultsRecovered(w.p, numbers))
    case Submit =>
      if w.p.recoveries <= w.infos.Keys && Prove(w.p, w.infos).Ok? then w.(p := Prove(w.p, w.infos).value) else w
    case Terminate(numbers, block) =>
      var r := TerminateSectors(w.p, block, w.infos, numbers);
      if r.Ok? then w.(p := r.value.0) else w
    case Expire(until) =>
      var r := PopExpiredSectors(w.p, until);
      if r.Ok? then w.(p := r.value.0) else w
    case PopEarly(max) => w.(p := w.p.(earlyTerminations := Pop(w.p.earlyTerminations, max).rest))
  }

  ghost function Run(ops: seq<Op>): World {
    if ops == [] then World(map[], EMPTY_PARTITION) else Step(Run(ops[..|ops| - 1]), ops[|ops| - 1])
  }

  lemma {:induction false} RegisterKeeps(p: Partition, infos: Infos, info: SectorInfo)
    requires Valid(p, infos) && info.number !in infos
    ensures Valid(p, infos[info.number := info.expiration])
  {
  }

  lemma {:induction false} PopEarlyKeeps(p: Partition, infos: Infos, max: nat)
    requires Valid(p, infos)
    ensures Valid(p.(earlyTerminations := Pop(p.earlyTerminations, max).rest), infos)
  {
    var t, rest := p.earlyTerminations, Pop(p.earlyTerminations, max).rest;
    PopSplits(t, max);
    assert forall b :: b in rest ==> rest[b] <= t[b];
  }

  lemma {:induction false} StepKeeps(w: World, op: Op)
    requires Valid(w.p, w.infos)
    ensures Valid(Step(w, op).p, Step(w, op).infos)
  {
    match op
    case Register(info) => if info.number !in w.infos { RegisterKeeps(w.p, w.infos, info); }
    case Add(items) => if Known(w.infos, items) { AddSectorsKeeps(w.p, w.infos, items); }
    case Fault(numbers, block) => RecordFaultsKeeps(w.p, w.infos, numbers, block);
    case DeclareRecovered(numbers) => DeclareRecoveredKeeps(w.p, w.infos, numbers);
    case Submit => ProveKeeps(w.p, w.infos);
    case Terminate(numbers, block) => TerminateKeeps(w.p, w.infos, block, numbers);
    case Expire(until) => PopExpiredKeeps(w.p, w.infos, until);
    case PopEarly(max) => PopEarlyKeeps(w.p, w.infos, max);
  }

  /** Every reachable partition is valid. */
  lemma {:induction false} RunValid(ops: seq<Op>)
    ensures Valid(Run(ops).p, Run(ops).infos)
  {
    if ops != [] {
      RunValid(ops[..|ops| - 1]);
      StepKeeps(Run(ops[..|ops| - 1]), ops[|ops| - 1]);
    } else {
      assert forall s :: !Scheduled(EMPTY_PARTITION.expirations, s);
    }
  }

  // ---------- causes ----------

  /** Some operation of the run declared s faulty with early expiration at k. */
  ghost predicate Declared(ops: seq<Op>, k: nat, s: nat) {
    exists i :: 0 <= i < |ops| && ops[i].Fault? && ops[i].block == k && s in ops[i].numbers
  }

  /** A single operation puts a sector on the early side only by declaring it faulty for that block. */
  lemma {:induction false} StepCause(w: World, op: Op, k: nat, s: nat)
    requires Valid(w.p, w.infos) && EarlyAt(Step(w, op).p.expirations, k, s) && !EarlyAt(w.p.expirations, k, s)
    ensures op.Fault? && op.block == k && s in op.numbers
  {
    var q := w.p.expirations;
    match op
    case Register(_) =>
    case Add(items) => AddActiveAt(q, (set i | i in items), k, s);
    case Fault(numbers, block) =>
      RecordFaultsKeeps(w.p, w.infos, numbers, block);
      var wanted := Restrict(w.infos, NewFaults(w.p, numbers));
      forall t | t in wanted ensures OnTimeAt(q, wanted[t], t) { ExactlyOnce(w.p, w.infos, t); }
      FaultsAt(q, w.infos, w.p.faults, wanted, block, k, s);
    case DeclareRecovered(_) =>
    case Submit =>
      ProveKeeps(w.p, w.infos);
      RecoveryAt(q, w.infos, w.p.faults, w.p.recoveries, k, s);
    case Terminate(numbers, block) =>
      TerminateKeeps(w.p, w.infos, block, numbers);
      RemovalAt(w.p, w.infos, numbers);
    case Expire(until) => DueAt(q, until);
    case PopEarly(_) =>
  }

  lemma {:induction false} EarlyHasCause(ops: seq<Op>, k: nat, s: nat)
    requires EarlyAt(Run(ops).p.expirations, k, s)
    ensures Declared(ops, k, s)
  {
    if ops != [] {
      var n := |ops| - 1;
      var w := Run(ops[..n]);
      RunValid(ops[..n]);
      if EarlyAt(w.p.expirations, k, s) {
        EarlyHasCause(ops[..n], k, s);
        var i :| 0 <= i < n && ops[..n][i].Fault? && ops[..n][i].block == k && s in ops[..n][i].numbers;
        assert ops[i] == ops[..n][i];
      } else {
        StepCause(w, ops[n], k, s);
        assert ops[n].Fault?;
      }
    }
  }

  /** In every run, expiry terminates a sector on time only at or after its own expiration, and early
      only if it is faulty and was declared so for a block that has come, before its expiration. */
  lemma {:induction false} ExpiryHasCause(ops: seq<Op>, until: nat)
    requires PopExpiredSectors(Run(ops).p, until).Ok?
    ensures var w := Run(ops);
            var popped := PopExpiredSectors(w.p, until).value.1;
            && (forall s :: s in popped.onTime ==> s in w.infos && w.infos[s] <= until)
            && (forall s :: s in popped.early ==>
                  && s in w.infos && s in w.p.faults
                  && exists k: nat :: k <= until && k < w.infos[s] && Declared(ops, k, s))
  {
    var w := Run(ops);
    RunValid(ops);
    PopExpiredKeeps(w.p, w.infos, until);
    var popped := PopExpiredSectors(w.p, until).value.1;
    forall s | s in popped.early
      ensures exists k: nat :: k <= until && k < w.infos[s] && Declared(ops, k, s)
    {
      var k: nat :| k <= until && k < w.infos[s] && EarlyAt(w.p.expirations, k, s);
      EarlyHasCause(ops, k, s);
    }
  }

  // ---------- the round trip ----------

  /** Queues without empty entries are determined by where they place each sector. */
  lemma {:induction false} SameQueue(a: Queue, b: Queue)
    requires NoEmptyEntries(a) && NoEmptyEntries(b)
    requires forall k, s :: OnTimeAt(a, k, s) <==> OnTimeAt(b, k, s)
    requires forall k, s :: EarlyAt(a, k, s) <==> EarlyAt(b, k, s)
    ensures a == b
  {
    SharedKeys(a, b);
    SharedKeys(b, a);
    forall k | k in a ensures a[k] == b[k] {
      assert forall s :: s in a[k].onTime <==> OnTimeAt(a, k, s);
      assert forall s :: s in b[k].onTime <==> OnTimeAt(b, k, s);
      assert forall s :: s in a[k].early <==> EarlyAt(a, k, s);
      assert forall s :: s in b[k].early <==> EarlyAt(b, k, s);
      assert a[k].onTime == b[k].onTime && a[k].early == b[k].early;
    }
  }

  lemma {:induction false} SharedKeys(a: Queue, b: Queue)
    requires NoEmptyEntries(a)
    requires forall k, s :: OnTimeAt(a, k, s) <==> OnTimeAt(b, k, s)
    requires forall k, s :: EarlyAt(a, k, s) <==> EarlyAt(b, k, s)
    ensures a.Keys <= b.Keys
  {
    forall k | k in a ensures k in b {
      var s :| s in a[k].onTime || s in a[k].early;
      assert OnTimeAt(a, k, s) || EarlyAt(a, k, s);
    }
  }

  /** Where the queue stands after declaring healthy sectors faulty for a block. */
  lemma {:induction false} FaultedAt(p: Partition, infos: Infos, healthy: set<nat>, block: nat, k: nat, s: nat)
    requires Valid(p, infos) && healthy <= p.Live() - p.faults
    ensures RecordFaults(p, infos, healthy, block).Ok?
    ensures var q, q' := p.expirations, RecordFaults(p, infos, healthy, block).value.0.expirations;
            && (OnTimeAt(q', k, s) <==> OnTimeAt(q, k, s) && !(s in healthy && infos[s] > block))
            && (EarlyAt(q', k, s) <==> EarlyAt(q, k, s) || (k == block && s in healthy && infos[s] > block))
  {
    RecordFaultsKeeps(p, infos, healthy, block);
    var wanted := Restrict(infos, NewFaults(p, healthy));
    assert wanted.Keys == healthy;
    forall t | t in wanted ensures OnTimeAt(p.expirations, wanted[t], t) { ExactlyOnce(p, infos, t); }
    FaultsAt(p.expirations, infos, p.faults, wanted, block, k, s);
  }

  /** Declaring healthy sectors faulty, declaring them recovered and proving the partition ends in
      exactly the state that proving it directly would have reached, whatever the fault block. */
  lemma {:induction false} FaultRecoverProve(p: Partition, infos: Infos, healthy: set<nat>, block: nat)
    requires Valid(p, infos) && healthy <= p.Live() - p.faults
    ensures RecordFaults(p, infos, healthy, block).Ok?
    ensures var faulted := RecordFaults(p, infos, healthy, block).value.0;
            var recovering := DeclareFaultsRecovered(faulted, healthy);
            && p.recoveries <= infos.Keys && recovering.recoveries <= infos.Keys
            && Prove(p, infos).Ok? && Prove(recovering, infos) == Prove(p, infos)
  {
    RecordFaultsKeeps(p, infos, healthy, block);
    var faulted := RecordFaults(p, infos, healthy, block).value.0;
    var recovering := DeclareFaultsRecovered(faulted, healthy);
    DeclareRecoveredKeeps(faulted, infos, healthy);
    assert recovering.recoveries == p.recoveries + healthy;
    ProveKeeps(p, infos);
    ProveKeeps(recovering, infos);
    var a, b := Prove(recovering, infos).value, Prove(p, infos).value;
    forall k, s
      ensures OnTimeAt(a.expirations, k, s) <==> OnTimeAt(b.expirations, k, s)
      ensures EarlyAt(a.expirations, k, s) <==> EarlyAt(b.expirations, k, s)
    {
      RoundTripAt(p, infos, healthy, block, k, s);
    }
    SameQueue(a.expirations, b.expirations);
    assert a.faults == b.faults;
  }

  lemma {:induction false} RoundTripAt(p: Partition, infos: Infos, healthy: set<nat>, block: nat, k: nat, s: nat)
    requires Valid(p, infos) && healthy <= p.Live() - p.faults
    requires RecordFaults(p, infos, healthy, block).Ok?
    requires Valid(DeclareFaultsRecovered(RecordFaults(p, infos, healthy, block).value.0, healthy), infos)
    requires DeclareFaultsRecovered(RecordFaults(p, infos, healthy, block).value.0, healthy).recoveries
             == p.recoveries + healthy
    ensures var q1 := RecordFaults(p, infos, healthy, block).value.0.expirations;
            var a := RescheduleRecovered(q1, infos, p.recoveries + healthy);
            var b := RescheduleRecovered(p.expirations, infos, p.recoveries);
            && a.Ok? && b.Ok?
            && (OnTimeAt(a.value, k, s) <==> OnTimeAt(b.value, k, s))
            && (EarlyAt(a.value, k, s) <==> EarlyAt(b.value, k, s))
  {
    var recovering := DeclareFaultsRecovered(RecordFaults(p, infos, healthy, block).value.0, healthy);
    RecoveryAt(recovering.expirations, infos, recovering.faults, p.recoveries + healthy, k, s);
    RecoveryAt(p.expirations, infos, p.faults, p.recoveries, k, s);
    FaultedAt(p, infos, healthy, block, k, s);
    if s in healthy { ExactlyOnce(p, infos, s); }
  }
}
