/** Exactly when the requests over several partitions of a deadline succeed, and what they do to each. */
module DeadlineExact {
  import opened Arith
  import opened Results
  import opened ExpirationQueue
  import opened Partitions
  import opened Deadlines
  import opened DeadlineSpec
  import DI = DeadlineInvariant
  import PI = PartitionInvariant

  /** Partitions outside `touched` are as they were. */
  ghost predicate Untouched(a: Parts, b: Parts, touched: set<nat>) {
    a.Keys == b.Keys && forall n :: n in a && n !in touched ==> b[n] == a[n]
  }

  // ---------- faults ----------

  ghost predicate FaultsAllowed(d: Deadline, infos: Infos, request: Request, todo: set<nat>)
    requires todo <= request.Keys
  {
    forall n :: n in todo ==> n in d.partitions && request[n] <= infos.Keys && request[n] <= d.partitions[n].sectors
  }

  /** Fault declarations are accepted exactly when every named partition exists and holds the sectors named for it. */
  lemma {:induction false} FaultsExact(d: Deadline, infos: Infos, size: nat, request: Request, todo: set<nat>,
                                       block: nat)
    requires Valid(d, infos, size) && todo <= request.Keys
    ensures Deadlines.RecordFaults(d, infos, request, todo, block).Ok? <==> FaultsAllowed(d, infos, request, todo)
    decreases todo
  {
    if todo != {} {
      var n := Least(todo);
      DI.FaultOneKeeps(d, infos, size, n, request[n], block);
      var r := RecordFaultsOne(d, infos, n, request[n], block);
      if r.Ok? {
        FaultsExact(r.value, infos, size, request, todo - {n}, block);
        FaultsRest(d, r.value, infos, request, todo, n);
      }
    }
  }

  lemma {:induction false} FaultsRest(d: Deadline, d': Deadline, infos: Infos, request: Request, todo: set<nat>, n: nat)
    requires todo <= request.Keys && n in todo && n in d.partitions && Untouched(d.partitions, d'.partitions, {n})
    requires request[n] <= infos.Keys && request[n] <= d.partitions[n].sectors
    ensures FaultsAllowed(d, infos, request, todo) <==> FaultsAllowed(d', infos, request, todo - {n})
  {
    if FaultsAllowed(d', infos, request, todo - {n}) {
      forall m | m in todo ensures m in d.partitions && request[m] <= infos.Keys
          && request[m] <= d.partitions[m].sectors {
        assert m != n ==> m in todo - {n};
      }
    }
  }

  // ---------- recoveries ----------

  ghost predicate RecoveriesAllowed(d: Deadline, infos: Infos, request: Request, todo: set<nat>)
    requires todo <= request.Keys
  {
    forall n :: n in todo ==> n in d.partitions && request[n] <= infos.Keys && request[n] <= d.partitions[n].faults
  }

  /** Recoveries are accepted exactly for sectors that are faulty in the partition named. */
  lemma {:induction false} RecoveriesExact(d: Deadline, infos: Infos, request: Request, todo: set<nat>)
    requires todo <= request.Keys
    ensures Deadlines.DeclareFaultsRecovered(d, infos, request, todo).Ok?
            <==> RecoveriesAllowed(d, infos, request, todo)
    decreases todo
  {
    if todo != {} {
      var n := Least(todo);
      var r := DeclareRecoveredOne(d, infos, n, request[n]);
      if r.Ok? {
        RecoveriesExact(r.value, infos, request, todo - {n});
        RecoveriesRest(d, r.value, infos, request, todo, n);
      }
    }
  }

  lemma {:induction false} RecoveriesRest(d: Deadline, d': Deadline, infos: Infos, request: Request, todo: set<nat>,
                                          n: nat)
    requires todo <= request.Keys && n in todo && n in d.partitions && Untouched(d.partitions, d'.partitions, {n})
    requires request[n] <= infos.Keys && request[n] <= d.partitions[n].faults
    ensures RecoveriesAllowed(d, infos, request, todo) <==> RecoveriesAllowed(d', infos, request, todo - {n})
  {
    if RecoveriesAllowed(d', infos, request, todo - {n}) {
      forall m | m in todo ensures m in d.partitions && request[m] <= infos.Keys
          && request[m] <= d.partitions[m].faults {
        assert m != n ==> m in todo - {n};
      }
    }
  }

  // ---------- terminations ----------

  ghost predicate TerminationsAllowed(d: Deadline, request: Request, todo: set<nat>)
    requires todo <= request.Keys
  {
    forall n :: n in todo ==> n in d.partitions && request[n] <= d.partitions[n].Live()
  }

  /** Terminations are accepted exactly for live sectors of the partitions named. */
  lemma {:induction false} TerminateExact(d: Deadline, infos: Infos, size: nat, block: nat, request: Request,
                                          todo: set<nat>)
    requires Valid(d, infos, size) && todo <= request.Keys
    ensures Deadlines.TerminateSectors(d, block, infos, request, todo).Ok? <==> TerminationsAllowed(d, request, todo)
    decreases todo
  {
    if todo != {} {
      var n := Least(todo);
      DI.TerminateOneKeeps(d, infos, size, block, n, request[n]);
      var r := TerminateOne(d, block, infos, n, request[n]);
      TerminateFirst(d, block, infos, request, todo, n, r);
      if r.Ok? {
        TerminateExact(r.value, infos, size, block, request, todo - {n});
        OthersUntouched(d, block, infos, n, request[n], r.value);
        TerminateRest(d, r.value, request, todo, n);
      }
    }
  }

  lemma {:induction false} TerminateFirst(d: Deadline, block: nat, infos: Infos, request: Request, todo: set<nat>,
                                          n: nat, r: Result<Deadline, Error>)
    requires todo <= request.Keys && todo != {} && n == Least(todo) && r == TerminateOne(d, block, infos, n, request[n])
    ensures Deadlines.TerminateSectors(d, block, infos, request, todo) ==
            if r.Err? then r else Deadlines.TerminateSectors(r.value, block, infos, request, todo - {n})
  {
  }

  lemma {:induction false} OthersUntouched(d: Deadline, block: nat, infos: Infos, n: nat, numbers: set<nat>,
                                           d': Deadline)
    requires TerminateOne(d, block, infos, n, numbers) == Ok(d')
    ensures Untouched(d.partitions, d'.partitions, {n})
  {
  }

  lemma {:induction false} TerminateRest(d: Deadline, d': Deadline, request: Request, todo: set<nat>, n: nat)
    requires todo <= request.Keys && n in todo && n in d.partitions && Untouched(d.partitions, d'.partitions, {n})
    requires request[n] <= d.partitions[n].Live()
    ensures TerminationsAllowed(d, request, todo) <==> TerminationsAllowed(d', request, todo - {n})
  {
    if TerminationsAllowed(d', request, todo - {n}) {
      forall m | m in todo ensures m in d.partitions && request[m] <= d.partitions[m].Live() {
        assert m != n ==> m in todo - {n};
      }
    }
  }

  // ---------- proofs ----------

  ghost predicate ProofAllowed(d: Deadline, numbers: seq<nat>) {
    && (forall i :: 0 <= i < |numbers| ==> numbers[i] in d.partitions && numbers[i] !in d.posted)
    && (forall i, j :: 0 <= i < j < |numbers| ==> numbers[i] != numbers[j])
  }

  lemma {:induction false} ProvenOne(d: Deadline, infos: Infos, n: nat)
    requires RecoveriesKnown(d, infos) && (n in d.partitions ==> PI.Valid(d.partitions[n], infos))
    ensures var r := RecordProvenOne(d, infos, n);
            && (r.Ok? <==> n in d.partitions && n !in d.posted)
            && (r.Ok? ==> r.value.partitions.Keys == d.partitions.Keys && r.value.posted == d.posted + {n})
  {
    if n in d.partitions { PI.ProveKeeps(d.partitions[n], infos); }
  }

  lemma {:induction false} OneProof(d: Deadline, infos: Infos, n: nat, r: Result<Deadline, Error>)
    requires RecoveriesKnown(d, infos) && r == RecordProvenOne(d, infos, n)
    ensures r.Ok? ==> RecoveriesKnown(r.value, infos)
    ensures RecordProven(d, infos, [n]) == r
  {
    assert [n][1..] == [];
  }

  /** A proof is accepted exactly for distinct existing partitions not proven in this window yet. */
  lemma {:induction false} ProvenExact(d: Deadline, infos: Infos, size: nat, numbers: seq<nat>)
    requires Valid(d, infos, size)
    ensures RecoveriesKnown(d, infos)
    ensures RecordProven(d, infos, numbers).Ok? <==> ProofAllowed(d, numbers)
    decreases |numbers|
  {
    DI.KnownRecoveries(d, infos, size);
    if numbers != [] {
      ProvenOne(d, infos, numbers[0]);
      var r := RecordProvenOne(d, infos, numbers[0]);
      if r.Ok? {
        DI.ProvenKeeps(d, infos, size, [numbers[0]]);
        OneProof(d, infos, numbers[0], r);
        ProvenExact(r.value, infos, size, numbers[1..]);
        ProvenRest(d, r.value, numbers);
      }
    }
  }

  lemma {:induction false} ProvenRest(d: Deadline, d': Deadline, numbers: seq<nat>)
    requires numbers != [] && numbers[0] in d.partitions && numbers[0] !in d.posted
    requires d'.partitions.Keys == d.partitions.Keys && d'.posted == d.posted + {numbers[0]}
    ensures ProofAllowed(d, numbers) <==> ProofAllowed(d', numbers[1..])
  {
    var rest := numbers[1..];
    assert forall i :: 0 <= i < |rest| ==> rest[i] == numbers[i + 1];
    if ProofAllowed(d', rest) {
      forall i | 0 <= i < |numbers| ensures numbers[i] in d.partitions && numbers[i] !in d.posted {
        if i > 0 { assert numbers[i] == rest[i - 1]; }
      }
      forall i, j | 0 <= i < j < |numbers| ensures numbers[i] != numbers[j] {
        assert numbers[j] == rest[j - 1];
        if i > 0 { assert numbers[i] == rest[i - 1]; }
      }
    }
    if ProofAllowed(d, numbers) {
      forall i | 0 <= i < |rest| ensures rest[i] in d'.partitions
          && rest[i] !in d'.posted { assert numbers[0] != numbers[i + 1]; }
    }
  }

  // ---------- expiry ----------

  /** Nothing of the partition waits for a proof. */
  ghost predicate Ready(p: Partition) {
    p.unproven == {} && p.recoveries == {}
  }

  /** The deadline's index lists the partition for a block up to `until`. */
  ghost predicate ListedBy(d: Deadline, until: nat, n: nat) {
    exists b :: b in d.expirationsBlocks && b <= until && d.expirationsBlocks[b] == n
  }

  lemma {:induction false} ListedExactly(blocks: map<nat, nat>, due: set<nat>, n: nat)
    requires due <= blocks.Keys
    ensures n in Listed(blocks, due) <==> exists b :: b in due && blocks[b] == n
    decreases due
  {
    if due != {} {
      var l := Least(due);
      ListedExactly(blocks, due - {l}, n);
      if b :| b in due && blocks[b] == n { assert b == l || b in due - {l}; }
    }
  }

  /** Expiring partitions changes neither what is unproven nor what is recovering. */
  ghost predicate SameWaiting(a: Parts, b: Parts) {
    a.Keys == b.Keys && forall n :: n in a ==> b[n].unproven == a[n].unproven && b[n].recoveries == a[n].recoveries
  }

  lemma {:induction false} ExpireSameWaiting(parts: Parts, numbers: seq<nat>, until: nat)
    ensures ExpireAll(parts, numbers, until).Ok?
            ==> SameWaiting(parts, ExpireAll(parts, numbers, until).value.partitions)
    decreases |numbers|
  {
    if numbers != [] { ExpireSameWaiting(parts, numbers[..|numbers| - 1], until); }
  }

  ghost predicate AllReady(parts: Parts, numbers: seq<nat>) {
    forall i :: 0 <= i < |numbers| ==> numbers[i] in parts && Ready(parts[numbers[i]])
  }

  lemma {:induction false} ReadySnoc(parts: Parts, numbers: seq<nat>)
    requires numbers != []
    ensures AllReady(parts, numbers) <==>
            && AllReady(parts, numbers[..|numbers| - 1])
            && numbers[|numbers| - 1] in parts && Ready(parts[numbers[|numbers| - 1]])
  {
    var init := numbers[..|numbers| - 1];
    if AllReady(parts, numbers) {
      forall i | 0 <= i < |init| ensures init[i] in parts && Ready(parts[init[i]]) { assert init[i] == numbers[i]; }
    }
    if AllReady(parts, init) {
      forall i | 0 <= i < |init| ensures numbers[i] in parts
          && Ready(parts[numbers[i]]) { assert init[i] == numbers[i]; }
    }
  }

  lemma {:induction false} ExpireAllExact(parts: Parts, infos: Infos, size: nat, marks: set<nat>, numbers: seq<nat>,
                                          until: nat)
    requires Shape(parts, infos, size) && Marked(parts, marks)
    ensures ExpireAll(parts, numbers, until).Ok? <==> AllReady(parts, numbers)
    decreases |numbers|
  {
    if numbers != [] {
      var init, n := numbers[..|numbers| - 1], numbers[|numbers| - 1];
      ExpireAllExact(parts, infos, size, marks, init, until);
      ReadySnoc(parts, numbers);
      var before := ExpireAll(parts, init, until);
      if before.Ok? {
        DI.ExpireKeeps(parts, infos, size, marks, init, until);
        ExpireSameWaiting(parts, init, until);
        if n in parts { ExpireOneExact(before.value.partitions, infos, size, n, until); }
      }
    }
  }

  lemma {:induction false} ExpireOneExact(parts: Parts, infos: Infos, size: nat, n: nat, until: nat)
    requires Shape(parts, infos, size) && n in parts
    ensures Partitions.PopExpiredSectors(parts[n], until).Ok? <==> Ready(parts[n])
  {
    assert PI.Valid(parts[n], infos);
    PI.PopExpiredKeeps(parts[n], infos, until);
  }

  /** Expiry succeeds exactly when no partition listed for a due block has unproven or recovering sectors. */
  lemma {:induction false} ExpiredExact(d: Deadline, infos: Infos, size: nat, until: nat)
    requires Valid(d, infos, size)
    ensures Deadlines.PopExpiredSectors(d, until).Ok? <==>
            forall n :: ListedBy(d, until, n) ==> n in d.partitions && Ready(d.partitions[n])
  {
    var due := DueBlocks(d.expirationsBlocks, until);
    var numbers := Listed(d.expirationsBlocks, due);
    ExpireAllExact(d.partitions, infos, size, d.earlyTerminations, numbers, until);
    forall n ensures ListedBy(d, until, n) <==> n in numbers {
      ListedExactly(d.expirationsBlocks, due, n);
      if n in numbers { var b :| b in due && d.expirationsBlocks[b] == n; }
      if b :| b in d.expirationsBlocks && b <= until && d.expirationsBlocks[b] == n { assert b in due; }
    }
    if AllReady(d.partitions, numbers) {
      forall n | n in numbers ensures n in d.partitions && Ready(d.partitions[n]) {
        var i :| 0 <= i < |numbers| && numbers[i] == n;
      }
    }
  }
}
