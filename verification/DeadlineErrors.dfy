/** What a deadline reports when it refuses a call: what is wrong with the first partition, in order, for which
    the call cannot be accepted. */
module DeadlineErrors {
  import opened Arith
  import opened Results
  import opened ExpirationQueue
  import opened Deadlines
  import opened DeadlineSpec
  import opened DeadlineExact
  import DI = DeadlineInvariant

  ghost function Below(todo: set<nat>, n: nat): set<nat> {
    set m | m in todo && m < n
  }

  lemma {:induction false} BelowNext(todo: set<nat>, n: nat, m: nat)
    requires n in todo && m in todo - {n} && forall k :: k in todo ==> n <= k
    ensures Below(todo, m) == Below(todo - {n}, m) + {n}
  {
  }

  lemma {:induction false} NoneBelow(todo: set<nat>, n: nat)
    requires n in todo && forall k :: k in todo ==> n <= k
    ensures Below(todo, n) == {}
  {
  }

  // ---------- faults ----------

  /** n is the first partition for which the declaration cannot be accepted. */
  ghost predicate FaultsFailAt(d: Deadline, infos: Infos, request: Request, todo: set<nat>, n: nat) {
    && n in todo && todo <= request.Keys && FaultsAllowed(d, infos, request, Below(todo, n))
    && !FaultsAllowed(d, infos, request, {n})
  }

  ghost function FaultComplaint(d: Deadline, infos: Infos, n: nat, numbers: set<nat>): Error {
    if n !in d.partitions then PartitionNotFound
    else if !(numbers <= infos.Keys) then DeclaredSectorsNotFound else FailedToAddFaults
  }

  lemma {:induction false} FaultsFailLater(d: Deadline, d1: Deadline, infos: Infos, request: Request, todo: set<nat>,
                                           n: nat, m: nat)
    requires n in todo && (forall k :: k in todo ==> n <= k) && Untouched(d.partitions, d1.partitions, {n})
    requires todo <= request.Keys && n in d.partitions
    requires request[n] <= infos.Keys && request[n] <= d.partitions[n].sectors
    requires FaultsFailAt(d1, infos, request, todo - {n}, m)
    ensures FaultsFailAt(d, infos, request, todo, m)
    ensures FaultComplaint(d, infos, m, request[m]) == FaultComplaint(d1, infos, m, request[m])
  {
    BelowNext(todo, n, m);
  }

  lemma {:induction false} FaultOneReport(d: Deadline, infos: Infos, size: nat, n: nat, numbers: set<nat>, block: nat)
      returns (r: Result<Deadline, Error>)
    requires Valid(d, infos, size)
    ensures r == RecordFaultsOne(d, infos, n, numbers, block)
    ensures r.Ok? <==> n in d.partitions && numbers <= infos.Keys && numbers <= d.partitions[n].sectors
    ensures r.Ok? ==> Valid(r.value, infos, size) && Untouched(d.partitions, r.value.partitions, {n})
    ensures r.Err? ==> r.error == FaultComplaint(d, infos, n, numbers)
  {
    DI.FaultOneKeeps(d, infos, size, n, numbers, block);
    r := RecordFaultsOne(d, infos, n, numbers, block);
    if r.Ok? { FaultUntouched(d, infos, n, numbers, block, r.value); }
  }

  lemma {:induction false} FaultUntouched(d: Deadline, infos: Infos, n: nat, numbers: set<nat>, block: nat,
                                          d': Deadline)
    requires RecordFaultsOne(d, infos, n, numbers, block) == Ok(d')
    ensures Untouched(d.partitions, d'.partitions, {n})
  {
  }

  lemma {:induction false} FaultsFirst(d: Deadline, infos: Infos, request: Request, todo: set<nat>, n: nat, block: nat,
                                       r: Result<Deadline, Error>)
    requires todo <= request.Keys && todo != {} && n == Least(todo)
    requires r == RecordFaultsOne(d, infos, n, request[n], block)
    ensures Deadlines.RecordFaults(d, infos, request, todo, block) ==
            if r.Err? then r else Deadlines.RecordFaults(r.value, infos, request, todo - {n}, block)
  {
  }

  /** A refused fault declaration reports what is wrong with the first partition it cannot be accepted for. */
  lemma {:induction false} FaultsError(d: Deadline, infos: Infos, size: nat, request: Request, todo: set<nat>,
                                       block: nat)
      returns (n: nat)
    requires Valid(d, infos, size) && todo <= request.Keys && !FaultsAllowed(d, infos, request, todo)
    ensures FaultsFailAt(d, infos, request, todo, n)
    ensures Deadlines.RecordFaults(d, infos, request, todo, block) == Err(FaultComplaint(d, infos, n, request[n]))
    decreases todo
  {
    n := Least(todo);
    var r := FaultOneReport(d, infos, size, n, request[n], block);
    FaultsFirst(d, infos, request, todo, n, block, r);
    if r.Ok? {
      FaultsRest(d, r.value, infos, request, todo, n);
      var m := FaultsError(r.value, infos, size, request, todo - {n}, block);
      FaultsFailLater(d, r.value, infos, request, todo, n, m);
      n := m;
    } else {
      NoneBelow(todo, n);
    }
  }

  // ---------- recoveries ----------

  ghost predicate RecoveriesFailAt(d: Deadline, infos: Infos, request: Request, todo: set<nat>, n: nat) {
    && n in todo && todo <= request.Keys && RecoveriesAllowed(d, infos, request, Below(todo, n))
    && !RecoveriesAllowed(d, infos, request, {n})
  }

  lemma {:induction false} RecoveriesError(d: Deadline, infos: Infos, request: Request, todo: set<nat>)
      returns (n: nat)
    requires todo <= request.Keys && !RecoveriesAllowed(d, infos, request, todo)
    ensures RecoveriesFailAt(d, infos, request, todo, n)
    ensures Deadlines.DeclareFaultsRecovered(d, infos, request, todo) ==
            Err(if n !in d.partitions then PartitionNotFound
                else if !(request[n] <= infos.Keys) then DeclaredSectorsNotFound else DeclaredSectorsNotFaulty)
    decreases todo
  {
    n := Least(todo);
    var r := DeclareRecoveredOne(d, infos, n, request[n]);
    if r.Ok? {
      RecoveriesRest(d, r.value, infos, request, todo, n);
      var m := RecoveriesError(r.value, infos, request, todo - {n});
      BelowNext(todo, n, m);
      n := m;
    }
  }

  // ---------- terminations ----------

  ghost predicate TerminateFailsAt(d: Deadline, request: Request, todo: set<nat>, n: nat) {
    && n in todo && todo <= request.Keys && TerminationsAllowed(d, request, Below(todo, n))
    && !TerminationsAllowed(d, request, {n})
  }

  lemma {:induction false} TerminateFailsLater(d: Deadline, d1: Deadline, request: Request, todo: set<nat>, n: nat,
                                               m: nat)
    requires n in todo && (forall k :: k in todo ==> n <= k) && Untouched(d.partitions, d1.partitions, {n})
    requires todo <= request.Keys && n in d.partitions && request[n] <= d.partitions[n].Live()
    requires TerminateFailsAt(d1, request, todo - {n}, m)
    ensures TerminateFailsAt(d, request, todo, m) && (m in d.partitions <==> m in d1.partitions)
  {
    BelowNext(todo, n, m);
  }

  lemma {:induction false} TerminateOneReport(d: Deadline, infos: Infos, size: nat, block: nat, n: nat,
                                              numbers: set<nat>)
      returns (r: Result<Deadline, Error>)
    requires Valid(d, infos, size)
    ensures r == TerminateOne(d, block, infos, n, numbers)
    ensures r.Ok? <==> n in d.partitions && numbers <= d.partitions[n].Live()
    ensures r.Ok? ==> Valid(r.value, infos, size) && Untouched(d.partitions, r.value.partitions, {n})
    ensures r.Err? ==> r.error == if n !in d.partitions then PartitionNotFound else SectorsNotLive
  {
    DI.TerminateOneKeeps(d, infos, size, block, n, numbers);
    r := TerminateOne(d, block, infos, n, numbers);
    if r.Ok? { OthersUntouched(d, block, infos, n, numbers, r.value); }
  }

  lemma {:induction false} TerminateError(d: Deadline, infos: Infos, size: nat, block: nat, request: Request,
                                          todo: set<nat>)
      returns (n: nat)
    requires Valid(d, infos, size) && todo <= request.Keys && !TerminationsAllowed(d, request, todo)
    ensures TerminateFailsAt(d, request, todo, n)
    ensures Deadlines.TerminateSectors(d, block, infos, request, todo) ==
            Err(if n !in d.partitions then PartitionNotFound else SectorsNotLive)
    decreases todo
  {
    n := Least(todo);
    var r := TerminateOneReport(d, infos, size, block, n, request[n]);
    TerminateFirst(d, block, infos, request, todo, n, r);
    if r.Ok? {
      TerminateRest(d, r.value, request, todo, n);
      var m := TerminateError(r.value, infos, size, block, request, todo - {n});
      TerminateFailsLater(d, r.value, request, todo, n, m);
      n := m;
    } else {
      NoneBelow(todo, n);
    }
  }

  // ---------- proofs ----------

  /** The proof could be accepted for the partitions before the i-th and not for that one as well. */
  ghost predicate ProofFailsAt(d: Deadline, numbers: seq<nat>, i: nat) {
    i < |numbers| && ProofAllowed(d, numbers[..i]) && !ProofAllowed(d, numbers[..i + 1])
  }

  ghost function ProofComplaint(d: Deadline, n: nat): Error {
    if n !in d.partitions then PartitionNotFound else PartitionAlreadyProven
  }

  lemma {:induction false} ProofFailsLater(d: Deadline, d1: Deadline, numbers: seq<nat>, j: nat, i: nat)
    requires i == j + 1 && numbers != [] && numbers[0] in d.partitions && numbers[0] !in d.posted
    requires d1.partitions.Keys == d.partitions.Keys && d1.posted == d.posted + {numbers[0]}
    requires ProofFailsAt(d1, numbers[1..], j)
    ensures ProofFailsAt(d, numbers, i) && ProofComplaint(d, numbers[i]) == ProofComplaint(d1, numbers[1..][j])
  {
    var rest := numbers[1..];
    assert numbers[..j + 1][1..] == rest[..j] && numbers[..j + 2][1..] == rest[..j + 1];
    ProvenRest(d, d1, numbers[..j + 1]);
    ProvenRest(d, d1, numbers[..j + 2]);
  }

  lemma {:induction false} ProofFailsFirst(d: Deadline, numbers: seq<nat>)
    requires numbers != [] && !(numbers[0] in d.partitions && numbers[0] !in d.posted)
    ensures ProofFailsAt(d, numbers, 0)
  {
    assert numbers[..1][0] == numbers[0];
  }

  /** One partition proven, and the proof of the others. */
  lemma {:induction false} ProvenOneReport(d: Deadline, infos: Infos, size: nat, numbers: seq<nat>)
      returns (r: Result<Deadline, Error>)
    requires Valid(d, infos, size) && RecoveriesKnown(d, infos) && numbers != []
    ensures r.Ok? <==> numbers[0] in d.partitions && numbers[0] !in d.posted
    ensures r.Ok? ==>
              && Valid(r.value, infos, size) && RecoveriesKnown(r.value, infos)
              && r.value.partitions.Keys == d.partitions.Keys && r.value.posted == d.posted + {numbers[0]}
              && RecordProven(d, infos, numbers) == RecordProven(r.value, infos, numbers[1..])
    ensures r.Err? ==>
              r.error == ProofComplaint(d, numbers[0]) && RecordProven(d, infos, numbers) == r
  {
    ProvenOne(d, infos, numbers[0]);
    r := RecordProvenOne(d, infos, numbers[0]);
    DI.ProvenKeeps(d, infos, size, [numbers[0]]);
    OneProof(d, infos, numbers[0], r);
  }

  /** A refused proof reports the first partition that does not exist, or is proven already or named again. */
  lemma {:induction false} ProvenError(d: Deadline, infos: Infos, size: nat, numbers: seq<nat>) returns (i: nat)
    requires Valid(d, infos, size) && RecoveriesKnown(d, infos) && !ProofAllowed(d, numbers)
    ensures ProofFailsAt(d, numbers, i)
    ensures RecordProven(d, infos, numbers) == Err(ProofComplaint(d, numbers[i]))
    decreases |numbers|
  {
    var rest := numbers[1..];
    var r := ProvenOneReport(d, infos, size, numbers);
    if r.Ok? {
      var d1 := r.value;
      ProvenRest(d, d1, numbers);
      var j := ProvenError(d1, infos, size, rest);
      i := j + 1;
      ProofFailsLater(d, d1, numbers, j, i);
    } else {
      i := 0;
      ProofFailsFirst(d, numbers);
    }
  }

  // ---------- expiry ----------

  lemma {:induction false} ExpireAllError(parts: Parts, infos: Infos, size: nat, marks: set<nat>, numbers: seq<nat>,
                                          until: nat)
      returns (i: nat)
    requires Shape(parts, infos, size) && Marked(parts, marks)
    requires forall i :: 0 <= i < |numbers| ==> numbers[i] in parts
    requires ExpireAll(parts, numbers, until).Err?
    ensures i < |numbers| && AllReady(parts, numbers[..i]) && !Ready(parts[numbers[i]])
    ensures ExpireAll(parts, numbers, until) ==
            Err(if parts[numbers[i]].unproven != {} then CannotPopUnprovenSectors else UnexpectedRecoveries)
    decreases |numbers|
  {
    var init, n := numbers[..|numbers| - 1], numbers[|numbers| - 1];
    var before := ExpireAll(parts, init, until);
    if before.Err? {
      i := ExpireAllError(parts, infos, size, marks, init, until);
      assert init[..i] == numbers[..i];
    } else {
      i := |numbers| - 1;
      ExpireAllExact(parts, infos, size, marks, init, until);
      DI.ExpireKeeps(parts, infos, size, marks, init, until);
      ExpireSameWaiting(parts, init, until);
      ExpireOneExact(before.value.partitions, infos, size, n, until);
    }
  }

  /** The i-th partition listed is that of a block for which all lower ones are listed before it. */
  lemma {:induction false} ListedBlock(blocks: map<nat, nat>, due: set<nat>, i: nat) returns (b: nat)
    requires due <= blocks.Keys && i < |Listed(blocks, due)|
    ensures b in due && blocks[b] == Listed(blocks, due)[i]
    ensures forall c :: c in due && c < b ==> blocks[c] in Listed(blocks, due)[..i]
    decreases due
  {
    b := Least(due);
    if i > 0 {
      var l, rest := b, Listed(blocks, due - {b});
      b := ListedBlock(blocks, due - {b}, i - 1);
      assert Listed(blocks, due)[..i] == [blocks[l]] + rest[..i - 1];
      forall c | c in due && c < b ensures blocks[c] in Listed(blocks, due)[..i] {
        if c != l { assert c in due - {l}; }
      }
    }
  }

  /** A closing that fails reports the partition of the first due block whose partition waits for a proof. */
  lemma {:induction false} ExpiredError(d: Deadline, infos: Infos, size: nat, until: nat) returns (b: nat)
    requires Valid(d, infos, size) && Deadlines.PopExpiredSectors(d, until).Err?
    ensures b in d.expirationsBlocks && b <= until && d.expirationsBlocks[b] in d.partitions
    ensures !Ready(d.partitions[d.expirationsBlocks[b]])
    ensures forall c :: c in d.expirationsBlocks && c < b ==>
              d.expirationsBlocks[c] in d.partitions && Ready(d.partitions[d.expirationsBlocks[c]])
    ensures Deadlines.PopExpiredSectors(d, until) ==
            Err(if d.partitions[d.expirationsBlocks[b]].unproven != {} then CannotPopUnprovenSectors
                else UnexpectedRecoveries)
  {
    var blocks, due := d.expirationsBlocks, DueBlocks(d.expirationsBlocks, until);
    var numbers := Listed(blocks, due);
    forall i | 0 <= i < |numbers| ensures numbers[i] in d.partitions {
      var c := ListedBlock(blocks, due, i);
      assert blocks[c] in blocks.Values;
    }
    var i := ExpireAllError(d.partitions, infos, size, d.earlyTerminations, numbers, until);
    b := ListedBlock(blocks, due, i);
    forall c | c in blocks && c < b ensures blocks[c] in d.partitions && Ready(d.partitions[blocks[c]]) {
      assert c in due;
      var j :| 0 <= j < i && numbers[..i][j] == blocks[c];
    }
  }
}
