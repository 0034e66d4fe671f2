/** Why a sector is terminated early: over every run of a provider on the proving clock, a sector that closing a
    deadline terminates early was declared faulty by an accepted call, or missed a proof, for that very block. */
module FaultCauses {
  import opened Arith
  import opened Results
  import opened ExpirationQueue
  import opened Partitions
  import opened Deadlines
  import opened DeadlineSpec
  import opened DeadlineExact
  import opened Providers
  import opened ProvingClock
  import opened EndOfBlock
  import opened Runs = ProvingRun
  import PR = ProviderRun
  import DI = DeadlineInvariant
  import PI = PartitionInvariant
  import P = PartitionRun

  // ---------- where sectors are early ----------

  ghost predicate Early(d: Deadline, n: nat, b: nat, x: nat) {
    n in d.partitions && PI.EarlyAt(d.partitions[n].expirations, b, x)
  }

  /** What is early was early before. */
  ghost predicate NoneNew(d: Deadline, d': Deadline) {
    forall n, b, x :: Early(d', n, b, x) ==> Early(d, n, b, x)
  }

  /** A change of one partition that makes nothing in it early. */
  lemma {:induction false} ReplacedNone(d: Deadline, n: nat, p: Partition, d': Deadline)
    requires n in d.partitions && d'.partitions == d.partitions[n := p]
    requires forall b: nat, x: nat :: PI.EarlyAt(p.expirations, b, x) ==> PI.EarlyAt(d.partitions[n].expirations, b, x)
    ensures NoneNew(d, d')
  {
  }

  // ---------- assignments ----------

  lemma {:induction false} AddedNone(p: Partition, items: seq<SectorInfo>, b: nat, x: nat)
    requires Partitions.AddSectors(p, items).Ok?
    ensures PI.EarlyAt(Partitions.AddSectors(p, items).value.expirations, b, x) <==> PI.EarlyAt(p.expirations, b, x)
  {
    PI.AddActiveAt(p.expirations, (set i | i in items), b, x);
  }

  ghost predicate EarlyIn(parts: map<nat, Partition>, n: nat, b: nat, x: nat) {
    n in parts && PI.EarlyAt(parts[n].expirations, b, x)
  }

  lemma {:induction false} FillNone(parts: map<nat, Partition>, idx: nat, size: nat, items: seq<SectorInfo>,
                                    r: Result<Filled, Error>,
                                    n: nat, b: nat, x: nat)
    requires size > 0 && items != [] && r == Fill(parts, idx, size, items) && r.Ok?
             && EarlyIn(r.value.partitions, n, b, x)
    ensures EarlyIn(parts, n, b, x)
    decreases |items|, |KeysFrom(parts, idx)|
  {
    var p := PartitionAt(parts, idx);
    if |p.sectors| >= size {
      FillSkips(parts, idx, size, items, p, r);
      FillNone(parts[idx := p], idx + 1, size, items, r, n, b, x);
    } else {
      var k := Room(p, size, items);
      var added := Partitions.AddSectors(p, items[..k]);
      var more := FillTakes(parts, idx, size, items, p, k, added, r);
      if k < |items| { FillNone(parts[idx := added.value], idx, size, items[k..], more, n, b, x); }
      AddedNone(p, items[..k], b, x);
    }
  }

  lemma {:induction false} AssignNone(d: Deadline, size: nat, items: seq<SectorInfo>)
    requires size > 0 && Deadlines.AddSectors(d, size, items).Ok?
    ensures NoneNew(d, Deadlines.AddSectors(d, size, items).value)
  {
    var d' := Deadlines.AddSectors(d, size, items).value;
    if items != [] {
      var r := Fill(d.partitions, LastIndex(d.partitions), size, items);
      forall n, b, x | Early(d', n, b, x) ensures Early(d, n, b, x) {
        FillNone(d.partitions, LastIndex(d.partitions), size, items, r, n, b, x);
      }
    }
  }

  // ---------- recoveries, proofs and terminations ----------

  lemma {:induction false} RecoveriesNone(d: Deadline, infos: Infos, request: Request, todo: set<nat>)
    requires todo <= request.Keys && Deadlines.DeclareFaultsRecovered(d, infos, request, todo).Ok?
    ensures NoneNew(d, Deadlines.DeclareFaultsRecovered(d, infos, request, todo).value)
    decreases todo
  {
    if todo != {} {
      var n := Least(todo);
      RecoveriesNone(DeclareRecoveredOne(d, infos, n, request[n]).value, infos, request, todo - {n});
    }
  }

  lemma {:induction false} ProvedNone(p: Partition, infos: Infos, p': Partition)
    requires PI.Valid(p, infos) && p.recoveries <= infos.Keys && Partitions.Prove(p, infos) == Ok(p')
    ensures forall b: nat, x: nat :: PI.EarlyAt(p'.expirations, b, x) ==> PI.EarlyAt(p.expirations, b, x)
  {
    forall b: nat, x: nat | PI.EarlyAt(p'.expirations, b, x) ensures PI.EarlyAt(p.expirations, b, x) {
      if !PI.EarlyAt(p.expirations, b, x) { P.StepCause(P.World(infos, p), P.Submit, b, x); }
    }
  }

  lemma {:induction false} ProvenNone(d: Deadline, infos: Infos, size: nat, numbers: seq<nat>)
    requires Valid(d, infos, size) && RecoveriesKnown(d, infos) && RecordProven(d, infos, numbers).Ok?
    ensures NoneNew(d, RecordProven(d, infos, numbers).value)
    decreases |numbers|
  {
    if numbers != [] {
      var n := numbers[0];
      var d1 := RecordProvenOne(d, infos, n).value;
      assert PI.Valid(d.partitions[n], infos);
      ProvedNone(d.partitions[n], infos, d1.partitions[n]);
      ReplacedNone(d, n, d1.partitions[n], d1);
      ProvenOneValid(d, infos, size, n, d1);
      ProvenNone(d1, infos, size, numbers[1..]);
    }
  }

  lemma {:induction false} ProvenOneValid(d: Deadline, infos: Infos, size: nat, n: nat, d': Deadline)
    requires Valid(d, infos, size) && RecoveriesKnown(d, infos) && RecordProvenOne(d, infos, n) == Ok(d')
    ensures Valid(d', infos, size)
  {
    OneProof(d, infos, n, RecordProvenOne(d, infos, n));
    DI.ProvenKeeps(d, infos, size, [n]);
  }

  lemma {:induction false} TerminateNone(d: Deadline, infos: Infos, size: nat, block: nat, request: Request,
                                         todo: set<nat>)
    requires Valid(d, infos, size) && todo <= request.Keys
             && Deadlines.TerminateSectors(d, block, infos, request, todo).Ok?
    ensures NoneNew(d, Deadlines.TerminateSectors(d, block, infos, request, todo).value)
    decreases todo
  {
    if todo != {} {
      var n := Least(todo);
      var d1 := TerminateOne(d, block, infos, n, request[n]).value;
      DI.TerminateOneKeeps(d, infos, size, block, n, request[n]);
      TerminateOneNone(d, infos, block, n, request[n], d1);
      TerminateNone(d1, infos, size, block, request, todo - {n});
    }
  }

  lemma {:induction false} TerminateOneNone(d: Deadline, infos: Infos, block: nat, n: nat, numbers: set<nat>,
                                            d': Deadline)
    requires AllValid(d.partitions, infos) && TerminateOne(d, block, infos, n, numbers) == Ok(d')
    ensures NoneNew(d, d')
  {
    assert PI.Valid(d.partitions[n], infos);
    TerminatedNone(d.partitions[n], infos, block, numbers, d'.partitions[n]);
    ReplacedNone(d, n, d'.partitions[n], d');
  }

  lemma {:induction false} TerminatedNone(p: Partition, infos: Infos, block: nat, numbers: set<nat>, p': Partition)
    requires PI.Valid(p, infos)
    requires var r := Partitions.TerminateSectors(p, block, infos, numbers); r.Ok? && r.value.0 == p'
    ensures forall b: nat, x: nat :: PI.EarlyAt(p'.expirations, b, x) ==> PI.EarlyAt(p.expirations, b, x)
  {
    forall b: nat, x: nat | PI.EarlyAt(p'.expirations, b, x) ensures PI.EarlyAt(p.expirations, b, x) {
      if !PI.EarlyAt(p.expirations, b, x) { P.StepCause(P.World(infos, p), P.Terminate(numbers, block), b, x); }
    }
  }

  // ---------- expiry ----------

  lemma {:induction false} ExpireNone(parts: map<nat, Partition>, numbers: seq<nat>, until: nat, n: nat, b: nat, x: nat)
    requires ExpireAll(parts, numbers, until).Ok? && EarlyIn(ExpireAll(parts, numbers, until).value.partitions, n, b, x)
    ensures EarlyIn(parts, n, b, x)
  {
    if numbers != [] {
      var init, last := numbers[..|numbers| - 1], numbers[|numbers| - 1];
      var before := ExpireAll(parts, init, until).value.partitions;
      PI.DueAt(before[last].expirations, until);
      ExpireNone(parts, init, until, n, b, x);
    }
  }

  lemma {:induction false} ExpiryNone(d: Deadline, until: nat)
    requires Deadlines.PopExpiredSectors(d, until).Ok?
    ensures NoneNew(d, Deadlines.PopExpiredSectors(d, until).value.0)
  {
    var due := DueBlocks(d.expirationsBlocks, until);
    if due != {} {
      forall n, b, x | Early(Deadlines.PopExpiredSectors(d, until).value.0, n, b, x) ensures Early(d, n, b, x) {
        ExpireNone(d.partitions, Listed(d.expirationsBlocks, due), until, n, b, x);
      }
    }
  }

  // ---------- faults ----------

  /** A partition in which the named sectors are declared faulty for a block. */
  lemma {:induction false} FaultedOnly(p: Partition, infos: Infos, numbers: set<nat>, block: nat, p': Partition,
                                       b: nat, x: nat)
    requires PI.Valid(p, infos) && PI.EarlyAt(p'.expirations, b, x) && !PI.EarlyAt(p.expirations, b, x)
    requires var r := Partitions.RecordFaults(p, infos, numbers, block); r.Ok? && r.value.0 == p'
    ensures b == block && x in numbers
  {
    FaultIsStep(p, infos, numbers, block, p');
    P.StepCause(P.World(infos, p), P.Fault(numbers, block), b, x);
  }

  lemma {:induction false} FaultIsStep(p: Partition, infos: Infos, numbers: set<nat>, block: nat, p': Partition)
    requires var r := Partitions.RecordFaults(p, infos, numbers, block); r.Ok? && r.value.0 == p'
    ensures P.Step(P.World(infos, p), P.Fault(numbers, block)).p == p'
  {
  }

  /** Only the named sectors become early, and only at the fault block. */
  lemma {:induction false} FaultsOnly(d: Deadline, infos: Infos, size: nat, request: Request, todo: set<nat>,
                                      block: nat,
                                      n: nat, b: nat, x: nat)
    requires Valid(d, infos, size) && todo <= request.Keys && Deadlines.RecordFaults(d, infos, request, todo, block).Ok?
    requires Early(Deadlines.RecordFaults(d, infos, request, todo, block).value, n, b, x) && !Early(d, n, b, x)
    ensures n in todo && x in request[n] && b == block
    decreases todo
  {
    if todo != {} {
      var m := Least(todo);
      var d1 := RecordFaultsOne(d, infos, m, request[m], block).value;
      DI.FaultOneKeeps(d, infos, size, m, request[m], block);
      if Early(d1, n, b, x) {
        FaultOneOnly(d, infos, m, request[m], block, d1, n, b, x);
      } else {
        FaultsOnly(d1, infos, size, request, todo - {m}, block, n, b, x);
      }
    }
  }

  lemma {:induction false} FaultOneOnly(d: Deadline, infos: Infos, m: nat, numbers: set<nat>, block: nat, d': Deadline,
                                        n: nat, b: nat, x: nat)
    requires AllValid(d.partitions, infos) && RecordFaultsOne(d, infos, m, numbers, block) == Ok(d')
    requires Early(d', n, b, x) && !Early(d, n, b, x)
    ensures n == m && x in numbers && b == block
  {
    assert n == m && PI.Valid(d.partitions[m], infos);
    FaultedOnly(d.partitions[m], infos, numbers, block, d'.partitions[m], b, x);
  }

  lemma {:induction false} MissOneOnly(d: Deadline, infos: Infos, m: nat, block: nat, d': Deadline, n: nat, b: nat,
                                       x: nat)
    requires AllValid(d.partitions, infos) && m in d.partitions && d' == MissOne(d, infos, m, block)
    requires Early(d', n, b, x) && !Early(d, n, b, x)
    ensures n == m && n !in d.posted && x in d.partitions[m].sectors && b == block
  {
    assert n == m && m !in d.posted && PI.Valid(d.partitions[m], infos);
    FaultedOnly(d.partitions[m], infos, d.partitions[m].sectors, block, d'.partitions[m], b, x);
  }

  /** A missed proof makes only sectors of partitions without a proof early, and only at its fault block. */
  lemma {:induction false} MissedOnly(d: Deadline, infos: Infos, size: nat, todo: set<nat>, block: nat, n: nat, b: nat,
                                      x: nat)
    requires Valid(d, infos, size) && todo <= d.partitions.Keys
    requires Early(MissAll(d, infos, todo, block), n, b, x) && !Early(d, n, b, x)
    ensures n in todo && n !in d.posted && x in d.partitions[n].sectors && b == block
    decreases todo
  {
    if todo != {} {
      var m := Least(todo);
      var d1 := MissOne(d, infos, m, block);
      MissOneKeeps(d, infos, size, m, block);
      if Early(d1, n, b, x) {
        MissOneOnly(d, infos, m, block, d1, n, b, x);
      } else {
        MissedOnly(d1, infos, size, todo - {m}, block, n, b, x);
      }
    }
  }

  // ---------- causes over runs ----------

  /** Sector x is in partition n, which has not been proven. */
  ghost predicate Missing(d: Deadline, n: nat, x: nat) {
    n in d.partitions && n !in d.posted && x in d.partitions[n].sectors
  }

  /** Event e in state s is why sector x of partition n of deadline i is early at block b: an accepted fault
      declaration that names it, or the closing of the deadline without a proof of its partition.  In both
      cases b is the last block of an occurrence of the deadline plus the age a fault may reach. */
  ghost predicate Causes(g: Setting, s: State, e: Event, i: nat, n: nat, b: nat, x: nat)
    requires g.Sound() && s.Timed(g.c)
  {
    && s.Running?
    && match e
       case Call(op) =>
         && op.Faults? && op.i == i && Accepts(g, s, op) && n in op.request && x in op.request[n]
         && b == op.block == Target(g.c, s.clock, s.now, i).Last() + g.maxAge
       case EndBlock =>
         && Closes(g.c, s.clock, s.now) && s.clock.deadline == i && b == Current(g.c, s.clock, s.now).Last() + g.maxAge
         && i < |s.w.sp.deadlines| && Missing(s.w.sp.deadlines[i], n, x)
  }

  /** Some event of the run is. */
  ghost predicate HasCause(g: Setting, events: seq<Event>, i: nat, n: nat, b: nat, x: nat)
    requires g.Sound()
  {
    exists j :: 0 <= j < |events| && Causes(g, Run(g, events[..j]), events[j], i, n, b, x)
  }

  ghost predicate EarlyOf(sp: Provider, i: nat, n: nat, b: nat, x: nat) {
    i < |sp.deadlines| && Early(sp.deadlines[i], n, b, x)
  }

  /** Pops change no queue. */
  lemma {:induction false} PopsNone(sp: Provider, sp': Provider, i: nat, n: nat, b: nat, x: nat)
    requires AllPopsOnly(sp, sp') && EarlyOf(sp', i, n, b, x)
    ensures EarlyOf(sp, i, n, b, x)
  {
    assert PopsOnly(sp.deadlines[i], sp'.deadlines[i]);
  }

  lemma {:induction false} OneDeadline(sp: Provider, sp': Provider, k: nat, i: nat, n: nat, b: nat, x: nat)
    requires k < |sp.deadlines| == |sp'.deadlines| && EarlyOf(sp', i, n, b, x) && !EarlyOf(sp, i, n, b, x)
    requires forall j :: 0 <= j < |sp.deadlines| && j != k ==> sp'.deadlines[j] == sp.deadlines[j]
    ensures i == k && Early(sp'.deadlines[k], n, b, x) && !Early(sp.deadlines[k], n, b, x)
  {
  }

  /** Of all calls only fault declarations make a sector early. */
  lemma {:induction false} CallCause(w: PR.World, size: nat, op: PR.Op, sp': Provider, i: nat, n: nat, b: nat, x: nat)
    requires size > 0 && PR.Inv(w, size) && sp' == PR.Step(w, size, op).sp && !op.Missed? && !op.Close?
    requires EarlyOf(sp', i, n, b, x) && !EarlyOf(w.sp, i, n, b, x)
    ensures op.Faults? && op.i == i && n in op.request && x in op.request[n] && b == op.block
  {
    match op
    case Register(_) =>
    case Assign(k, items) => AssignCause(w, size, k, items, sp', i, n, b, x);
    case Faults(k, request, block) => FaultsCause(w, size, k, request, block, sp', i, n, b, x);
    case Recoveries(k, request) => RecoveriesCause(w, size, k, request, sp', i, n, b, x);
    case Proof(k, numbers) => ProofCause(w, size, k, numbers, sp', i, n, b, x);
    case Terminate(k, request, block) => TerminateCause(w, size, k, request, block, sp', i, n, b, x);
    case PopEarly(maxPartitions, maxSectors) => PopCause(w, size, maxPartitions, maxSectors, sp', i, n, b, x);
  }

  lemma {:induction false} AssignCause(w: PR.World, size: nat, k: nat, items: seq<SectorInfo>, sp': Provider, i: nat,
                                       n: nat, b: nat, x: nat)
    requires size > 0 && sp' == PR.Step(w, size, PR.Assign(k, items)).sp && EarlyOf(sp', i, n, b, x)
    ensures EarlyOf(w.sp, i, n, b, x)
  {
    if !EarlyOf(w.sp, i, n, b, x) {
      OneDeadline(w.sp, sp', k, i, n, b, x);
      AssignNone(w.sp.deadlines[k], size, items);
      assert false;
    }
  }

  lemma {:induction false} FaultsCause(w: PR.World, size: nat, k: nat, request: Request, block: nat, sp': Provider,
                                       i: nat, n: nat, b: nat, x: nat)
    requires size > 0 && PR.Inv(w, size) && sp' == PR.Step(w, size, PR.Faults(k, request, block)).sp
    requires EarlyOf(sp', i, n, b, x) && !EarlyOf(w.sp, i, n, b, x)
    ensures k == i && n in request && x in request[n] && b == block
  {
    OneDeadline(w.sp, sp', k, i, n, b, x);
    assert Valid(w.sp.deadlines[k], w.infos, size);
    FaultsOnly(w.sp.deadlines[k], w.infos, size, request, request.Keys, block, n, b, x);
  }

  lemma {:induction false} RecoveriesCause(w: PR.World, size: nat, k: nat, request: Request, sp': Provider, i: nat,
                                           n: nat, b: nat, x: nat)
    requires size > 0 && sp' == PR.Step(w, size, PR.Recoveries(k, request)).sp && EarlyOf(sp', i, n, b, x)
    ensures EarlyOf(w.sp, i, n, b, x)
  {
    if !EarlyOf(w.sp, i, n, b, x) {
      OneDeadline(w.sp, sp', k, i, n, b, x);
      RecoveriesNone(w.sp.deadlines[k], w.infos, request, request.Keys);
      assert false;
    }
  }

  lemma {:induction false} ProofCause(w: PR.World, size: nat, k: nat, numbers: seq<nat>, sp': Provider, i: nat, n: nat,
                                      b: nat, x: nat)
    requires size > 0 && PR.Inv(w, size) && sp' == PR.Step(w, size, PR.Proof(k, numbers)).sp && EarlyOf(sp', i, n, b, x)
    ensures EarlyOf(w.sp, i, n, b, x)
  {
    if !EarlyOf(w.sp, i, n, b, x) {
      OneDeadline(w.sp, sp', k, i, n, b, x);
      assert Valid(w.sp.deadlines[k], w.infos, size);
      ProvenNone(w.sp.deadlines[k], w.infos, size, numbers);
      assert false;
    }
  }

  lemma {:induction false} TerminateCause(w: PR.World, size: nat, k: nat, request: Request, block: nat, sp': Provider,
                                          i: nat, n: nat, b: nat, x: nat)
    requires size > 0 && PR.Inv(w, size) && sp' == PR.Step(w, size, PR.Terminate(k, request, block)).sp
             && EarlyOf(sp', i, n, b, x)
    ensures EarlyOf(w.sp, i, n, b, x)
  {
    if !EarlyOf(w.sp, i, n, b, x) {
      OneDeadline(w.sp, sp', k, i, n, b, x);
      assert Valid(w.sp.deadlines[k], w.infos, size);
      TerminateNone(w.sp.deadlines[k], w.infos, size, block, request, request.Keys);
      assert false;
    }
  }

  lemma {:induction false} PopCause(w: PR.World, size: nat, maxPartitions: nat, maxSectors: nat, sp': Provider, i: nat,
                                    n: nat, b: nat, x: nat)
    requires size > 0 && sp' == PR.Step(w, size, PR.PopEarly(maxPartitions, maxSectors)).sp && EarlyOf(sp', i, n, b, x)
    ensures EarlyOf(w.sp, i, n, b, x)
  {
    var r := Providers.PopEarlyTerminations(w.sp, maxPartitions, maxSectors);
    if w.sp.earlyTerminations != {} && r.Ok? {
      PopDeadlinesOnly(w.sp, w.sp.earlyTerminations, maxPartitions, maxSectors, NO_TERMINATIONS, r);
      PopsNone(w.sp, sp', i, n, b, x);
    }
  }

  /** Closing a deadline makes only sectors early whose partition missed its proof. */
  lemma {:induction false} CloseCause(w: PR.World, size: nat, k: nat, last: nat, maxAge: nat, w': PR.World, i: nat,
                                      n: nat, b: nat, x: nat)
    requires size > 0 && PR.Inv(w, size) && k < |w.sp.deadlines| && CloseCurrent(w, k, last, maxAge) == Ok(w')
    requires EarlyOf(w'.sp, i, n, b, x) && !EarlyOf(w.sp, i, n, b, x)
    ensures i == k && b == last + maxAge && n in w.sp.deadlines[k].partitions && n !in w.sp.deadlines[k].posted
    ensures x in w.sp.deadlines[k].partitions[n].sectors
  {
    var d := w.sp.deadlines[k];
    assert Valid(d, w.infos, size);
    var d1 := Checked(d, w.infos, last + maxAge);
    CloseCurrentExact(w, size, k, last, maxAge);
    OneDeadline(w.sp, w'.sp, k, i, n, b, x);
    ClosedFrom(w, k, last, maxAge, w', d1);
    ExpiryNone(d1, last);
    MissedOnly(d, w.infos, size, d.partitions.Keys, last + maxAge, n, b, x);
  }

  lemma {:induction false} ClosedFrom(w: PR.World, k: nat, last: nat, maxAge: nat, w': PR.World, d: Deadline)
    requires k < |w.sp.deadlines| && CloseCurrent(w, k, last, maxAge) == Ok(w')
             && d == Checked(w.sp.deadlines[k], w.infos, last + maxAge)
    ensures Deadlines.PopExpiredSectors(d, last).Ok? && k < |w'.sp.deadlines|
    ensures w'.sp.deadlines[k] == Deadlines.PopExpiredSectors(d, last).value.0
  {
  }

  lemma {:induction false} StepCause(g: Setting, s: State, e: Event, i: nat, n: nat, b: nat, x: nat)
    requires g.Sound() && s.Running? && s.Timed(g.c) && Good(g, s) && Runs.Step(g, s, e).Running?
    requires EarlyOf(Runs.Step(g, s, e).w.sp, i, n, b, x) && !EarlyOf(s.w.sp, i, n, b, x)
    ensures Causes(g, s, e, i, n, b, x)
  {
    match e
    case Call(op) => CallCause(s.w, g.size, op, Runs.Step(g, s, e).w.sp, i, n, b, x);
    case EndBlock => EndCause(g, s, Runs.Step(g, s, EndBlock), i, n, b, x);
  }

  lemma {:induction false} EndCause(g: Setting, s: State, s': State, i: nat, n: nat, b: nat, x: nat)
    requires g.Sound() && s.Running? && s.Timed(g.c) && Good(g, s) && s' == Runs.Step(g, s, EndBlock) && s'.Running?
    requires EarlyOf(s'.w.sp, i, n, b, x) && !EarlyOf(s.w.sp, i, n, b, x)
    ensures Causes(g, s, EndBlock, i, n, b, x)
  {
    if Closes(g.c, s.clock, s.now) {
      var last := Current(g.c, s.clock, s.now).Last();
      ClosingIs(g, s, last, CloseCurrent(s.w, s.clock.deadline, last, g.maxAge));
      CloseCause(s.w, g.size, s.clock.deadline, last, g.maxAge, s'.w, i, n, b, x);
    }
  }

  lemma {:induction false} CauseStays(g: Setting, events: seq<Event>, e: Event, i: nat, n: nat, b: nat, x: nat)
    requires g.Sound() && HasCause(g, events, i, n, b, x)
    ensures HasCause(g, events + [e], i, n, b, x)
  {
    var j :| 0 <= j < |events| && Causes(g, Run(g, events[..j]), events[j], i, n, b, x);
    assert (events + [e])[..j] == events[..j] && (events + [e])[j] == events[j];
  }

  /** In every run a sector is early at a block only because of such an event. */
  lemma {:induction false} EarlyHasCause(g: Setting, events: seq<Event>, i: nat, n: nat, b: nat, x: nat)
    requires g.Sound() && Run(g, events).Running? && EarlyOf(Run(g, events).w.sp, i, n, b, x)
    ensures HasCause(g, events, i, n, b, x)
  {
    if events != [] {
      var k := |events| - 1;
      var init, e := events[..k], events[k];
      assert events == init + [e];
      RunGood(g, init);
      if EarlyOf(Run(g, init).w.sp, i, n, b, x) {
        EarlyHasCause(g, init, i, n, b, x);
        CauseStays(g, init, e, i, n, b, x);
      } else {
        StepCause(g, Run(g, init), e, i, n, b, x);
      }
    }
  }

  // ---------- what a closing terminates ----------

  /** Only due sectors are popped, each from a partition that held it. */
  lemma {:induction false} ExpirePops(parts: map<nat, Partition>, numbers: seq<nat>, until: nat, x: nat)
    requires ExpireAll(parts, numbers, until).Ok?
    ensures x in ExpireAll(parts, numbers, until).value.popped.early
            ==> exists n, b: nat :: b <= until && EarlyIn(parts, n, b, x)
    ensures x in ExpireAll(parts, numbers, until).value.popped.onTime ==>
              exists n, b: nat :: n in parts && b <= until && PI.OnTimeAt(parts[n].expirations, b, x)
  {
    if numbers != [] {
      var init, last := numbers[..|numbers| - 1], numbers[|numbers| - 1];
      var before := ExpireAll(parts, init, until).value;
      ExpirePops(parts, init, until, x);
      var q := before.partitions[last].expirations;
      PI.DueAt(q, until);
      ExpireLater(parts, init, until, last);
      if x in DueEarly(q, until) {
        var b: nat :| b <= until && PI.EarlyAt(q, b, x);
        assert EarlyIn(parts, last, b, x);
      }
      if x in DueOnTime(q, until) {
        var b: nat :| b <= until && PI.OnTimeAt(q, b, x);
        assert PI.OnTimeAt(parts[last].expirations, b, x);
      }
    }
  }

  /** What is left in a partition's queue was there before. */
  lemma {:induction false} ExpireLater(parts: map<nat, Partition>, numbers: seq<nat>, until: nat, n: nat)
    requires ExpireAll(parts, numbers, until).Ok? && n in ExpireAll(parts, numbers, until).value.partitions
    ensures n in parts
    ensures var q := ExpireAll(parts, numbers, until).value.partitions[n].expirations;
            forall b: nat, x: nat ::
              && (PI.EarlyAt(q, b, x) ==> PI.EarlyAt(parts[n].expirations, b, x))
              && (PI.OnTimeAt(q, b, x) ==> PI.OnTimeAt(parts[n].expirations, b, x))
  {
    if numbers != [] {
      var init, last := numbers[..|numbers| - 1], numbers[|numbers| - 1];
      var before := ExpireAll(parts, init, until).value.partitions;
      ExpireLater(parts, init, until, n);
      PI.DueAt(before[last].expirations, until);
    }
  }

  /** What closing a deadline terminates. */
  ghost function Terminated(w: PR.World, i: nat, last: nat, maxAge: nat): Result<ExpirationSet, Error>
    requires i < |w.sp.deadlines|
  {
    var r := Deadlines.PopExpiredSectors(Checked(w.sp.deadlines[i], w.infos, last + maxAge), last);
    if r.Err? then Err(r.error) else Ok(r.value.1)
  }

  lemma {:induction false} PoppedWhy(d: Deadline, infos: Infos, size: nat, last: nat, x: nat) returns (n: nat, b: nat)
    requires Valid(d, infos, size) && Deadlines.PopExpiredSectors(d, last).Ok?
    ensures var popped := Deadlines.PopExpiredSectors(d, last).value.1;
            && (x in popped.onTime ==> x in infos && infos[x] <= last)
            && (x in popped.early ==> x in infos && b <= last && b < infos[x] && Early(d, n, b, x))
  {
    var due := DueBlocks(d.expirationsBlocks, last);
    n, b := 0, 0;
    if due != {} {
      ExpirePops(d.partitions, Listed(d.expirationsBlocks, due), last, x);
      assert AllValid(d.partitions, infos);
      if x in Deadlines.PopExpiredSectors(d, last).value.1.early {
        n, b :| b <= last && EarlyIn(d.partitions, n, b, x);
        assert PI.Valid(d.partitions[n], infos);
      }
    }
  }

  lemma {:induction false} OnTimeWhy(w: PR.World, size: nat, i: nat, last: nat, maxAge: nat, x: nat)
    requires i < |w.sp.deadlines| && Valid(w.sp.deadlines[i], w.infos, size)
    requires Terminated(w, i, last, maxAge).Ok? && x in Terminated(w, i, last, maxAge).value.onTime
    ensures x in w.infos && w.infos[x] <= last
  {
    CheckedKeeps(w.sp.deadlines[i], w.infos, size, last + maxAge);
    var n, b := PoppedWhy(Checked(w.sp.deadlines[i], w.infos, last + maxAge), w.infos, size, last, x);
  }

  lemma {:induction false} EarlyWhy(w: PR.World, size: nat, i: nat, last: nat, maxAge: nat, x: nat)
      returns (n: nat, b: nat)
    requires i < |w.sp.deadlines| && Valid(w.sp.deadlines[i], w.infos, size)
    requires Terminated(w, i, last, maxAge).Ok? && x in Terminated(w, i, last, maxAge).value.early
    ensures x in w.infos && b <= last && b < w.infos[x]
    ensures Early(w.sp.deadlines[i], n, b, x) || (b == last + maxAge && Missing(w.sp.deadlines[i], n, x))
  {
    var d := w.sp.deadlines[i];
    CheckedKeeps(d, w.infos, size, last + maxAge);
    n, b := PoppedWhy(Checked(d, w.infos, last + maxAge), w.infos, size, last, x);
    if !Early(d, n, b, x) { MissedOnly(d, w.infos, size, d.partitions.Keys, last + maxAge, n, b, x); }
  }

  lemma {:induction false} RunValid(g: Setting, events: seq<Event>, s: State, i: nat)
    requires g.Sound() && s == Run(g, events) && s.Running? && i < |s.w.sp.deadlines|
    ensures Valid(s.w.sp.deadlines[i], s.w.infos, g.size)
  {
    RunGood(g, events);
  }

  /** Sector x is terminated before its expiration, and some event of the run is the reason. */
  ghost predicate EarlyWithCause(g: Setting, events: seq<Event>, s: State, last: nat, x: nat)
    requires g.Sound() && s.Running?
  {
    && x in s.w.infos
    && exists n, b: nat :: b <= last && b < s.w.infos[x] && HasCause(g, events, s.clock.deadline, n, b, x)
  }

  /** In every run, a closing deadline terminates a sector on time only once it has expired. */
  lemma {:induction false} ClosingOnTime(g: Setting, events: seq<Event>, s: State, i: nat, last: nat, x: nat)
    requires g.Sound() && s == Run(g, events) && s.Running? && Closes(g.c, s.clock, s.now)
    requires i == s.clock.deadline < |s.w.sp.deadlines| && last == Current(g.c, s.clock, s.now).Last()
    requires Terminated(s.w, i, last, g.maxAge).Ok? && x in Terminated(s.w, i, last, g.maxAge).value.onTime
    ensures x in s.w.infos && s.w.infos[x] <= last
  {
    RunValid(g, events, s, i);
    OnTimeWhy(s.w, g.size, i, last, g.maxAge, x);
  }

  /** In every run, a closing deadline terminates a sector early only before its expiration and because, for a block
      that has come, an accepted call declared it faulty or its partition missed a proof. */
  lemma {:induction false} ClosingHasCause(g: Setting, events: seq<Event>, s: State, i: nat, last: nat, x: nat)
    requires g.Sound() && s == Run(g, events) && s.Running? && Closes(g.c, s.clock, s.now)
    requires i == s.clock.deadline < |s.w.sp.deadlines| && last == Current(g.c, s.clock, s.now).Last()
    requires Terminated(s.w, i, last, g.maxAge).Ok? && x in Terminated(s.w, i, last, g.maxAge).value.early
    ensures EarlyWithCause(g, events + [EndBlock], s, last, x)
  {
    RunValid(g, events, s, i);
    var n, b := EarlyWhy(s.w, g.size, i, last, g.maxAge, x);
    WithCause(g, events, s, i, last, n, b, x);
  }

  lemma {:induction false} WithCause(g: Setting, events: seq<Event>, s: State, i: nat, last: nat, n: nat, b: nat,
                                     x: nat)
    requires g.Sound() && s == Run(g, events) && s.Running? && Closes(g.c, s.clock, s.now)
    requires i == s.clock.deadline < |s.w.sp.deadlines| && last == Current(g.c, s.clock, s.now).Last()
    requires Early(s.w.sp.deadlines[i], n, b, x) || (b == last + g.maxAge && Missing(s.w.sp.deadlines[i], n, x))
    ensures HasCause(g, events + [EndBlock], i, n, b, x)
  {
    if Early(s.w.sp.deadlines[i], n, b, x) {
      assert EarlyOf(s.w.sp, i, n, b, x);
      EarlyHasCause(g, events, i, n, b, x);
      CauseStays(g, events, EndBlock, i, n, b, x);
    } else {
      assert (events + [EndBlock])[..|events|] == events && (events + [EndBlock])[|events|] == EndBlock;
      assert Causes(g, s, EndBlock, i, n, b, x);
    }
  }
}
