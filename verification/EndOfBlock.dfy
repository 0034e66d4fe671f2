/** The end-of-block check of a provider's current deadline (pallets/storage-provider/src/lib.rs and
    storage_provider.rs): partitions without a proof are declared faulty, due sectors expire and the
    clock steps on.  If expiry fails the check panics. */
module EndOfBlock {
  import opened Arith
  import opened Results
  import opened ExpirationQueue
  import opened Partitions
  import opened Deadlines
  import opened DeadlineSpec
  import opened DeadlineExact
  import opened Providers
  import opened ProvingClock
  import opened ProviderRun
  import DI = DeadlineInvariant
  import PI = PartitionInvariant

  // ---------- the check ----------

  function MissAll(d: Deadline, infos: Infos, todo: set<nat>, block: nat): Deadline
    requires todo <= d.partitions.Keys
    decreases todo
  {
    if todo == {} then d else MissAll(MissOne(d, infos, Least(todo), block), infos, todo - {Least(todo)}, block)
  }

  /** The deadline as expiry finds it: missed proofs are dealt with and the proofs of this window forgotten. */
  function Checked(d: Deadline, infos: Infos, block: nat): Deadline {
    MissAll(d, infos, d.partitions.Keys, block).(posted := {})
  }

  /** Faults found at the end of a deadline expire after `maxAge` blocks. */
  function CloseCurrent(w: World, i: nat, last: nat, maxAge: nat): Result<World, Error>
    requires i < |w.sp.deadlines|
  {
    var d := Checked(w.sp.deadlines[i], w.infos, last + maxAge);
    var r := CloseDeadline(w.sp.(deadlines := w.sp.deadlines[i := d]), i, last);
    if r.Err? then Err(r.error) else Ok(w.(sp := r.value.0))
  }

  /** What finalising a block does to a provider and its clock; an error is a panic. */
  function CheckDeadline(c: Config, maxAge: nat, w: World, k: Clock, block: nat): Result<(World, Clock), Error>
    requires c.Tiled() && k.periodStart >= c.period
  {
    if !Closes(c, k, block) || k.deadline >= |w.sp.deadlines| then Ok((w, k))
    else
      var r := CloseCurrent(w, k.deadline, NewDeadlineInfo(c, block, k.periodStart, k.deadline).Last(), maxAge);
      if r.Err? then Err(r.error) else Ok((r.value, Advance(c, k)))
  }

  // ---------- what missing a proof does ----------

  /** What a missed proof leaves: all live sectors faulty and nothing waiting for a proof. */
  ghost predicate Missed(p: Partition, p': Partition) {
    && p'.sectors == p.sectors && p'.Live() == p.Live() && p'.earlyTerminations == p.earlyTerminations
    && p'.faults == p.Live() && Ready(p')
  }

  lemma {:induction false} MissedFacts(p: Partition, infos: Infos, block: nat) returns (p': Partition)
    requires PI.Valid(p, infos)
    ensures Partitions.RecordFaults(p, infos, p.sectors, block).Ok?
            && Partitions.RecordFaults(p, infos, p.sectors, block).value.0 == p'
    ensures PI.Valid(p', infos) && Missed(p, p')
  {
    PI.RecordFaultsKeeps(p, infos, p.sectors, block);
    p' := Partitions.RecordFaults(p, infos, p.sectors, block).value.0;
  }

  lemma {:induction false} MissOneKeeps(d: Deadline, infos: Infos, size: nat, n: nat, block: nat)
    requires Valid(d, infos, size) && n in d.partitions
    ensures var d' := MissOne(d, infos, n, block);
            && Valid(d', infos, size) && Quiet(d, d') && d' == d.(partitions := d'.partitions)
            && Untouched(d.partitions, d'.partitions, {n})
            && (if n in d.posted then d' == d else Missed(d.partitions[n], d'.partitions[n]))
  {
    assert PI.Valid(d.partitions[n], infos) && d.partitions[n].sectors != {};
    var p' := MissedFacts(d.partitions[n], infos, block);
    MissOneIs(d, infos, n, block, p');
    MissedApplied(d, infos, size, n, p');
  }

  lemma {:induction false} MissedApplied(d: Deadline, infos: Infos, size: nat, n: nat, p': Partition)
    requires Valid(d, infos, size) && n in d.partitions && PI.Valid(p', infos) && Missed(d.partitions[n], p')
    ensures var d' := d.(partitions := d.partitions[n := p']);
            Valid(d', infos, size) && Quiet(d, d') && Untouched(d.partitions, d'.partitions, {n})
  {
    DI.ReplaceSameLive(d, infos, size, n, p');
    QuietReplace(d, n, p', d.(partitions := d.partitions[n := p']));
  }

  /** Exactly the partitions of todo without a proof have changed. */
  ghost predicate MissedAll(d: Deadline, d': Deadline, todo: set<nat>)
    requires todo <= d.partitions.Keys
  {
    && d' == d.(partitions := d'.partitions) && Untouched(d.partitions, d'.partitions, todo - d.posted)
    && forall n :: n in todo && n !in d.posted ==> n in d'.partitions && Missed(d.partitions[n], d'.partitions[n])
  }

  lemma {:induction false} MissAllKeeps(d: Deadline, infos: Infos, size: nat, todo: set<nat>, block: nat)
    requires Valid(d, infos, size) && todo <= d.partitions.Keys
    ensures var d' := MissAll(d, infos, todo, block);
            Valid(d', infos, size) && Quiet(d, d') && MissedAll(d, d', todo)
    decreases todo
  {
    if todo != {} {
      var n := Least(todo);
      var d1 := MissOne(d, infos, n, block);
      MissOneKeeps(d, infos, size, n, block);
      MissAllKeeps(d1, infos, size, todo - {n}, block);
      var d' := MissAll(d1, infos, todo - {n}, block);
      QuietTrans(d, d1, d');
      MissedStep(d, d1, d', todo, n);
    }
  }

  lemma {:induction false} MissedStep(d: Deadline, d1: Deadline, d': Deadline, todo: set<nat>, n: nat)
    requires todo <= d.partitions.Keys && n in todo
    requires d1 == d.(partitions := d1.partitions) && Untouched(d.partitions, d1.partitions, {n})
    requires if n in d.posted then d1 == d else Missed(d.partitions[n], d1.partitions[n])
    requires MissedAll(d1, d', todo - {n})
    ensures MissedAll(d, d', todo)
  {
  }

  // ---------- exactly when the check panics ----------

  /** Every proven partition that the index lists for a due block has nothing waiting for a proof. */
  ghost predicate Closable(d: Deadline, last: nat) {
    forall n :: ListedBy(d, last, n) && n in d.posted ==> n in d.partitions && Ready(d.partitions[n])
  }

  lemma {:induction false} CheckedKeeps(d: Deadline, infos: Infos, size: nat, block: nat)
    requires Valid(d, infos, size)
    ensures var d' := Checked(d, infos, block);
            && Valid(d', infos, size) && Quiet(d, d') && d'.posted == {} && d'.expirationsBlocks == d.expirationsBlocks
            && MissedAll(d, d'.(posted := d.posted), d.partitions.Keys)
  {
    MissAllKeeps(d, infos, size, d.partitions.Keys, block);
    ForgetPosted(MissAll(d, infos, d.partitions.Keys, block), infos, size);
  }

  lemma {:induction false} CheckedReady(d: Deadline, d': Deadline, infos: Infos, size: nat, last: nat)
    requires Valid(d, infos, size) && MissedAll(d, d'.(posted := d.posted), d.partitions.Keys)
    ensures (forall n :: ListedBy(d', last, n) ==> n in d'.partitions && Ready(d'.partitions[n])) <==> Closable(d, last)
  {
    assert forall n :: ListedBy(d', last, n) <==> ListedBy(d, last, n);
    forall n | ListedBy(d, last, n) ensures n in d.partitions {
      var b :| b in d.expirationsBlocks && b <= last && d.expirationsBlocks[b] == n;
      assert n in d.expirationsBlocks.Values;
    }
  }

  /** Closing the current deadline succeeds exactly when every proven partition that is listed for a due
      block has no unproven and no recovering sector; it keeps the provider's invariant. */
  lemma {:induction false} CloseCurrentExact(w: World, size: nat, i: nat, last: nat, maxAge: nat)
    requires Inv(w, size) && i < |w.sp.deadlines| && size > 0
    ensures CloseCurrent(w, i, last, maxAge).Ok? <==> Closable(w.sp.deadlines[i], last)
    ensures CloseCurrent(w, i, last, maxAge).Ok? ==>
              var w' := CloseCurrent(w, i, last, maxAge).value;
              && Inv(w', size) && |w'.sp.deadlines| == |w.sp.deadlines| && w'.sp.deadlines[i].posted == {}
              && forall j :: 0 <= j < |w.sp.deadlines| && j != i ==> w'.sp.deadlines[j] == w.sp.deadlines[j]
  {
    var d := w.sp.deadlines[i];
    assert Valid(d, w.infos, size);
    var d' := Checked(d, w.infos, last + maxAge);
    CheckedKeeps(d, w.infos, size, last + maxAge);
    CheckedReady(d, d', w.infos, size, last);
    ExpiredExact(d', w.infos, size, last);
    QuietInv(w, size, i, d');
    CloseChecked(World(w.infos, Provider(w.sp.deadlines[i := d'], w.sp.earlyTerminations)), size, i, last);
  }

  lemma {:induction false} CloseIs(sp: Provider, i: nat, last: nat, d: Deadline, expired: ExpirationSet)
      returns (sp': Provider)
    requires i < |sp.deadlines| && Deadlines.PopExpiredSectors(sp.deadlines[i], last) == Ok((d, expired))
    ensures CloseDeadline(sp, i, last) == Ok((sp', expired)) && d.posted == sp.deadlines[i].posted
    ensures sp' == Provider(sp.deadlines[i := d],
                            if expired.early != {} then sp.earlyTerminations + {i} else sp.earlyTerminations)
  {
    sp' := CloseDeadline(sp, i, last).value.0;
  }

  lemma {:induction false} CloseChecked(w: World, size: nat, i: nat, last: nat)
    requires Inv(w, size) && i < |w.sp.deadlines| && size > 0 && w.sp.deadlines[i].posted == {}
    ensures var r := CloseDeadline(w.sp, i, last);
            && (r.Ok? <==> Deadlines.PopExpiredSectors(w.sp.deadlines[i], last).Ok?)
            && (r.Ok? ==> && Inv(w.(sp := r.value.0), size) && |r.value.0.deadlines| == |w.sp.deadlines|
                          && r.value.0.deadlines[i].posted == {}
                          && forall j :: 0 <= j < |w.sp.deadlines| && j != i
                              ==> r.value.0.deadlines[j] == w.sp.deadlines[j])
  {
    var d := w.sp.deadlines[i];
    assert Valid(d, w.infos, size);
    if Deadlines.PopExpiredSectors(d, last).Ok? {
      var (d', expired) := Deadlines.PopExpiredSectors(d, last).value;
      DI.ExpiredKeeps(d, w.infos, size, last);
      ExpiredSame(d, last, d', expired);
      var sp' := CloseIs(w.sp, i, last, d', expired);
      CloseApplied(w, size, i, d', expired.early != {});
    }
  }
}

/** The provider as the object the pallet mutates at the end of a block.  Deadlines are held by value. */
module EndOfBlockMethods {
  import opened Arith
  import opened Results
  import opened ExpirationQueue
  import opened Partitions
  import opened Deadlines
  import opened Providers
  import opened ProvingClock
  import PR = ProviderRun
  import Spec = EndOfBlock

  class ProviderState {
    var sectors: Infos
    var deadlines: seq<Deadline>
    var earlyTerminations: set<nat>
    var provingPeriodStart: nat
    var currentDeadline: nat

    constructor (periodStart: nat, n: nat)
      ensures World() == PR.World(map[], Provider(seq(n, _ => FRESH_DEADLINE), {})) && Time() == Clock(periodStart, 0)
    {
      sectors, deadlines, earlyTerminations := map[], seq(n, _ => FRESH_DEADLINE), {};
      provingPeriodStart, currentDeadline := periodStart, 0;
    }

    ghost function World(): PR.World
      reads this
    {
      PR.World(sectors, Provider(deadlines, earlyTerminations))
    }

    ghost function Time(): Clock
      reads this
    {
      Clock(provingPeriodStart, currentDeadline)
    }

    /** Steps to the next deadline, wrapping into the next period, and expires the sectors that were due by
        the last block of the old one; nothing happens before the period starts. */
    method AdvanceDeadline(c: Config, block: nat) returns (r: Result<(), Error>)
      requires c.Tiled() && provingPeriodStart >= c.period
      modifies this
      ensures block < old(provingPeriodStart) ==> r == Ok(()) && World() == old(World()) && Time() == old(Time())
      ensures block >= old(provingPeriodStart) ==>
                var last := NewDeadlineInfo(c, block, old(provingPeriodStart), old(currentDeadline)).Last();
                var s := CloseDeadline(old(World()).sp, old(currentDeadline), last);
                && Time() == Advance(c, old(Time()))
                && r == (if s.Ok? then Ok(()) else Err(s.error))
                && (s.Ok? ==> World() == old(World()).(sp := s.value.0))
    {
      var info := NewDeadlineInfo(c, block, provingPeriodStart, currentDeadline);
      if !info.PeriodStarted() {
        return Ok(());
      }
      currentDeadline := (currentDeadline + 1) % c.deadlines;
      if currentDeadline == 0 {
        provingPeriodStart := provingPeriodStart + c.period;
      }
      if info.idx >= |deadlines| {
        return Err(DeadlineIndexOutOfRange);
      }
      var popped := Deadlines.PopExpiredSectors(deadlines[info.idx], info.Last());
      if popped.Err? {
        return Err(popped.error);
      }
      deadlines := deadlines[info.idx := popped.value.0];
      if popped.value.1.early != {} {
        earlyTerminations := earlyTerminations + {info.idx};
      }
      return Ok(());
    }

    /** Declares the sectors of every partition without a proof faulty. */
    method MissProofs(i: nat, block: nat)
      requires i < |deadlines|
      modifies this`deadlines
      ensures deadlines == old(deadlines)[i :=
                                          Spec.MissAll(old(deadlines)[i], sectors, old(deadlines)[i].partitions.Keys,
                                                       block)]
    {
      var d := deadlines[i];
      var todo := d.partitions.Keys;
      while todo != {}
        invariant todo <= d.partitions.Keys
        invariant Spec.MissAll(d, sectors, todo, block)
                  == Spec.MissAll(deadlines[i], sectors, deadlines[i].partitions.Keys, block)
        decreases todo
      {
        var n := Least(todo);
        if d.partitions[n].sectors != {} && n !in d.posted {
          var faulted := Partitions.RecordFaults(d.partitions[n], sectors, d.partitions[n].sectors, block);
          if faulted.Ok? {
            d := d.(partitions := d.partitions[n := faulted.value.0]);
          }
        }
        todo := todo - {n};
      }
      deadlines := deadlines[i := d];
    }

    /** The end-of-block check; an error is where the pallet panics. */
    method CheckDeadline(c: Config, maxAge: nat, block: nat) returns (r: Result<(), Error>)
      requires c.Tiled() && provingPeriodStart >= c.period
      modifies this
      ensures var s := Spec.CheckDeadline(c, maxAge, old(World()), old(Time()), block);
              && r == (if s.Ok? then Ok(()) else Err(s.error))
              && (s.Ok? ==> World() == s.value.0 && Time() == s.value.1)
    {
      if block < provingPeriodStart {
        return Ok(());
      }
      var current := NewDeadlineInfo(c, block, provingPeriodStart, currentDeadline);
      if !current.PeriodStarted() || !current.HasElapsed() || current.idx >= |deadlines| {
        return Ok(());
      }
      MissProofs(current.idx, current.Last() + maxAge);
      deadlines := deadlines[current.idx := deadlines[current.idx].(posted := {})];
      assert deadlines == old(deadlines)[current.idx :=
                                         Spec.Checked(old(deadlines)[current.idx], sectors, current.Last() + maxAge)];
      r := AdvanceDeadline(c, block);
    }
  }
}
