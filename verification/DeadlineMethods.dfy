/** A deadline and a provider as the objects the pallet mutates (pallets/storage-provider/src/deadline.rs,
    storage_provider.rs): loops over partitions and deadlines, proved to do what the deadline functions say.
    Partitions are held by value.  After an error the caller discards the object. */
module DeadlineMethods {
  import opened Arith
  import opened Results
  import opened ExpirationQueue
  import opened Partitions
  import Spec = Deadlines
  import Providers

  // ---------- filling partitions ----------

  /** Filling the partitions from idx with what is left, after the updates noted, completes the goal. */
  ghost predicate Filling(goal: Result<Spec.Filled, Error>, partitions: map<nat, Partition>, idx: nat, size: nat,
                          left: seq<SectorInfo>, updates: seq<(nat, nat)>)
    requires size > 0
  {
    if left == [] then goal == Ok(Spec.Filled(partitions, updates))
    else goal == Spec.Noted(updates, Spec.Fill(partitions, idx, size, left))
  }

  lemma {:induction false} NotedNone(r: Result<Spec.Filled, Error>)
    ensures Spec.Noted([], r) == r
  {
    assert r.Ok? ==> [] + r.value.updates == r.value.updates;
  }

  lemma {:induction false} NotedTwice(a: seq<(nat, nat)>, b: seq<(nat, nat)>, r: Result<Spec.Filled, Error>)
    ensures Spec.Noted(a, Spec.Noted(b, r)) == Spec.Noted(a + b, r)
  {
    assert r.Ok? ==> a + (b + r.value.updates) == a + b + r.value.updates;
  }

  /** The goal of a whole fill. */
  lemma {:induction false} FillStarts(partitions: map<nat, Partition>, idx: nat, size: nat, items: seq<SectorInfo>)
      returns (goal: Result<Spec.Filled, Error>)
    requires size > 0 && items != []
    ensures Filling(goal, partitions, idx, size, items, [])
  {
    goal := Spec.Noted([], Spec.Fill(partitions, idx, size, items));
  }

  lemma {:induction false} FillIs(goal: Result<Spec.Filled, Error>, partitions: map<nat, Partition>, idx: nat,
                                  size: nat, items: seq<SectorInfo>)
    requires size > 0 && items != [] && Filling(goal, partitions, idx, size, items, [])
    ensures goal == Spec.Fill(partitions, idx, size, items)
  {
    NotedNone(Spec.Fill(partitions, idx, size, items));
  }

  lemma {:induction false} FillPasses(goal: Result<Spec.Filled, Error>, partitions: map<nat, Partition>, idx: nat,
                                      size: nat,
                                      left: seq<SectorInfo>, updates: seq<(nat, nat)>, p: Partition)
    requires size > 0 && left != [] && Filling(goal, partitions, idx, size, left, updates)
    requires p == Spec.PartitionAt(partitions, idx) && |p.sectors| >= size
    ensures Filling(goal, partitions[idx := p], idx + 1, size, left, updates)
    ensures |Spec.KeysFrom(partitions[idx := p], idx + 1)| < |Spec.KeysFrom(partitions, idx)|
  {
    Spec.FillSkips(partitions, idx, size, left, p, Spec.Fill(partitions, idx, size, left));
  }

  lemma {:induction false} FillAdds(goal: Result<Spec.Filled, Error>, partitions: map<nat, Partition>, idx: nat,
                                    size: nat,
                                    left: seq<SectorInfo>, updates: seq<(nat, nat)>, p: Partition,
                                    added: Result<Partition, Error>)
    requires size > 0 && left != [] && Filling(goal, partitions, idx, size, left, updates)
    requires p == Spec.PartitionAt(partitions, idx) && |p.sectors| < size
    requires added == Partitions.AddSectors(p, left[..Spec.Room(p, size, left)])
    ensures added.Err? ==> goal == Err(added.error)
    ensures added.Ok? ==>
              Filling(goal, partitions[idx := added.value], idx, size, left[Spec.Room(p, size, left)..],
                      updates + Spec.Updates(left[..Spec.Room(p, size, left)], idx))
  {
    var n := Spec.Room(p, size, left);
    var more := Spec.FillTakes(partitions, idx, size, left, p, n, added, Spec.Fill(partitions, idx, size, left));
    if n == |left| {
      assert left[..n] == left;
    } else {
      NotedTwice(updates, Spec.Updates(left[..n], idx), more);
    }
  }

  // ---------- expiring ----------

  /** A partition that cannot be expired stops the whole call. */
  lemma {:induction false} ExpireFails(partitions: map<nat, Partition>, numbers: seq<nat>, i: nat, until: nat)
    requires i <= |numbers| && Spec.ExpireAll(partitions, numbers[..i], until).Err?
    ensures Spec.ExpireAll(partitions, numbers, until) == Spec.ExpireAll(partitions, numbers[..i], until)
    decreases |numbers| - i
  {
    if i < |numbers| {
      assert numbers[..i + 1][..i] == numbers[..i];
      ExpireFails(partitions, numbers, i + 1, until);
    } else {
      assert numbers[..i] == numbers;
    }
  }

  // ---------- popping early terminations ----------

  /** Popping the partitions in todo, after what has been collected, completes the goal. */
  ghost predicate Popping(goal: (Spec.Deadline, Spec.TerminationResult), d: Spec.Deadline, todo: set<nat>,
                          maxPartitions: nat, maxSectors: nat, so: Spec.TerminationResult)
  {
    so.sectorsProcessed <= maxSectors && goal == Spec.PopMarked(d, todo, maxPartitions, maxSectors, so)
  }

  lemma {:induction false} PopStarts(d: Spec.Deadline, maxPartitions: nat, maxSectors: nat)
      returns (goal: (Spec.Deadline, Spec.TerminationResult))
    ensures Popping(goal, d, d.earlyTerminations, maxPartitions, maxSectors, Spec.NO_TERMINATIONS)
  {
    goal := Spec.PopMarked(d, d.earlyTerminations, maxPartitions, maxSectors, Spec.NO_TERMINATIONS);
  }

  lemma {:induction false} PopIs(goal: (Spec.Deadline, Spec.TerminationResult), d: Spec.Deadline, maxPartitions: nat,
                                 maxSectors: nat)
    requires Popping(goal, d, d.earlyTerminations, maxPartitions, maxSectors, Spec.NO_TERMINATIONS)
    ensures Spec.PopEarlyTerminations(d, maxPartitions, maxSectors) == (goal.0, goal.1, goal.0.earlyTerminations != {})
  {
  }

  lemma {:induction false} PopEnds(goal: (Spec.Deadline, Spec.TerminationResult), d: Spec.Deadline, maxPartitions: nat,
                                   maxSectors: nat,
                                   so: Spec.TerminationResult)
    requires Popping(goal, d, {}, maxPartitions, maxSectors, so)
    ensures goal == (d, so)
  {
  }

  lemma {:induction false} PopSkips(goal: (Spec.Deadline, Spec.TerminationResult), d: Spec.Deadline, todo: set<nat>,
                                    maxPartitions: nat, maxSectors: nat, so: Spec.TerminationResult)
    requires Popping(goal, d, todo, maxPartitions, maxSectors, so) && todo != {} && Least(todo) !in d.partitions
    ensures Popping(goal, d.(earlyTerminations := d.earlyTerminations - {Least(todo)}), todo - {Least(todo)},
                    maxPartitions, maxSectors, so)
  {
  }

  lemma {:induction false} PopTakes(goal: (Spec.Deadline, Spec.TerminationResult), d: Spec.Deadline, n: nat,
                                    todo: set<nat>,
                                    maxPartitions: nat, maxSectors: nat, so: Spec.TerminationResult, max: nat)
      returns (d': Spec.Deadline, so': Spec.TerminationResult)
    requires Popping(goal, d, todo, maxPartitions, maxSectors, so) && todo != {} && n == Least(todo)
             && n in d.partitions
    requires max == maxSectors - so.sectorsProcessed
    ensures d' == Spec.AfterPop(d, n, max) && so' == so.Add(Spec.PopPartition(d.partitions[n], max).1)
    ensures !so'.BelowLimit(maxPartitions, maxSectors) ==> goal == (d', so')
    ensures so'.BelowLimit(maxPartitions, maxSectors) ==> Popping(goal, d', todo - {n}, maxPartitions, maxSectors, so')
  {
    var result;
    result, d', so' := Spec.PopMarkedUnfold(d, n, todo, maxPartitions, maxSectors, so, goal, max);
  }

  class Deadline {
    var partitions: map<nat, Partition>
    var expirationsBlocks: map<nat, nat>
    var posted: set<nat>
    var earlyTerminations: set<nat>
    var liveSectors: int
    var totalSectors: int

    ghost function State(): Spec.Deadline
      reads this
    {
      Spec.Deadline(partitions, expirationsBlocks, posted, earlyTerminations, liveSectors, totalSectors)
    }

    constructor ()
      ensures State() == Spec.FRESH_DEADLINE
    {
      partitions, expirationsBlocks, posted, earlyTerminations := map[], map[], {}, {};
      liveSectors, totalSectors := 0, 0;
    }

    /** One round of filling: a full partition is passed over, one with room takes its part, a missing one is
        created. */
    method FillRound(ghost goal: Result<Spec.Filled, Error>, idx: nat, size: nat, left: seq<SectorInfo>,
                     ghost updates: seq<(nat, nat)>)
        returns (r: Result<(nat, seq<SectorInfo>, seq<(nat, nat)>), Error>)
      requires size > 0 && left != [] && Filling(goal, partitions, idx, size, left, updates)
      modifies this`partitions
      ensures r.Err? ==> goal == Err(r.error)
      ensures r.Ok? ==>
                && Filling(goal, partitions, r.value.0, size, r.value.1, updates + r.value.2)
                && (|r.value.1| < |left|
                    || (r.value.1 == left
                        && |Spec.KeysFrom(partitions, r.value.0)| < |Spec.KeysFrom(old(partitions), idx)|))
    {
      var p := if idx in partitions then partitions[idx] else EMPTY_PARTITION;
      if |p.sectors| >= size {
        FillPasses(goal, partitions, idx, size, left, updates, p);
        partitions := partitions[idx := p];
        assert updates + [] == updates;
        return Ok((idx + 1, left, []));
      }
      var n := Spec.Room(p, size, left);
      var added := Partitions.AddSectors(p, left[..n]);
      FillAdds(goal, partitions, idx, size, left, updates, p, added);
      if added.Err? { return Err(added.error); }
      partitions := partitions[idx := added.value];
      return Ok((idx, left[n..], Spec.Updates(left[..n], idx)));
    }

    /** Fills partitions from start on until no sector is left. */
    method FillPartitions(start: nat, size: nat, items: seq<SectorInfo>) returns (r: Result<seq<(nat, nat)>, Error>)
      requires size > 0 && items != []
      modifies this`partitions
      ensures var s := Spec.Fill(old(partitions), start, size, items);
              r == (if s.Ok? then Ok(s.value.updates) else Err(s.error)) && (s.Ok? ==> partitions == s.value.partitions)
    {
      var idx, left, updates := start, items, [];
      ghost var goal := FillStarts(partitions, start, size, items);
      while left != []
        invariant Filling(goal, partitions, idx, size, left, updates)
        decreases |left|, |Spec.KeysFrom(partitions, idx)|
      {
        var round := FillRound(goal, idx, size, left, updates);
        if round.Err? {
          FillIs(goal, old(partitions), start, size, items);
          return Err(round.error);
        }
        idx, left, updates := round.value.0, round.value.1, updates + round.value.2;
      }
      FillIs(goal, old(partitions), start, size, items);
      return Ok(updates);
    }

    method AddSectors(size: nat, items: seq<SectorInfo>) returns (r: Result<(), Error>)
      requires size > 0
      modifies this
      ensures var s := Spec.AddSectors(old(State()), size, items);
              r == (if s.Ok? then Ok(()) else Err(s.error)) && (s.Ok? ==> State() == s.value)
    {
      if items == [] { return Ok(()); }
      liveSectors, totalSectors := liveSectors + |items|, totalSectors + |items|;
      r := AddAll(Spec.LastIndex(partitions), size, items);
    }

    method AddAll(start: nat, size: nat, items: seq<SectorInfo>) returns (r: Result<(), Error>)
      requires size > 0 && items != []
      modifies this`partitions, this`expirationsBlocks
      ensures var s := Spec.Fill(old(partitions), start, size, items);
              && r == (if s.Ok? then Ok(()) else Err(s.error))
              && (s.Ok? ==>
                    && partitions == s.value.partitions
                    && expirationsBlocks == Spec.Insert(old(expirationsBlocks), s.value.updates))
    {
      var filled := FillPartitions(start, size, items);
      if filled.Err? { return Err(filled.error); }
      InsertUpdates(filled.value);
      return Ok(());
    }

    method InsertUpdates(updates: seq<(nat, nat)>)
      modifies this`expirationsBlocks
      ensures expirationsBlocks == Spec.Insert(old(expirationsBlocks), updates)
    {
      for i := 0 to |updates|
        invariant expirationsBlocks == Spec.Insert(old(expirationsBlocks), updates[..i])
      {
        assert updates[..i + 1][..i] == updates[..i];
        expirationsBlocks := expirationsBlocks[updates[i].0 := updates[i].1];
      }
      assert updates[..|updates|] == updates;
    }

    method RecordFaults(infos: Infos, request: Spec.Request, block: nat) returns (r: Result<(), Error>)
      modifies this
      ensures var s := Spec.RecordFaults(old(State()), infos, request, request.Keys, block);
              if s.Ok? then r.Ok? && State() == s.value else r == Err(s.error)
    {
      var todo := request.Keys;
      while todo != {}
        invariant todo <= request.Keys
        invariant Spec.RecordFaults(State(), infos, request, todo, block)
               == Spec.RecordFaults(old(State()), infos, request, request.Keys, block)
        decreases todo
      {
        var n := Least(todo);
        ghost var one := Spec.RecordFaultsOne(State(), infos, n, request[n], block);
        if n !in partitions { return Err(PartitionNotFound); }
        if !(request[n] <= infos.Keys) { return Err(DeclaredSectorsNotFound); }
        var recorded := Partitions.RecordFaults(partitions[n], infos, request[n], block);
        if recorded.Err? { return Err(recorded.error); }
        partitions := partitions[n := recorded.value.0];
        var entries := set b | b in expirationsBlocks && expirationsBlocks[b] == n;
        if entries != {} { expirationsBlocks := expirationsBlocks - {Least(entries)}; }
        expirationsBlocks := expirationsBlocks[block := n];
        assert one == Ok(State());
        todo := todo - {n};
      }
      return Ok(());
    }

    method DeclareFaultsRecovered(infos: Infos, request: Spec.Request) returns (r: Result<(), Error>)
      modifies this
      ensures var s := Spec.DeclareFaultsRecovered(old(State()), infos, request, request.Keys);
              if s.Ok? then r.Ok? && State() == s.value else r == Err(s.error)
    {
      var todo := request.Keys;
      while todo != {}
        invariant todo <= request.Keys
        invariant Spec.DeclareFaultsRecovered(State(), infos, request, todo)
               == Spec.DeclareFaultsRecovered(old(State()), infos, request, request.Keys)
        decreases todo
      {
        var n := Least(todo);
        ghost var one := Spec.DeclareRecoveredOne(State(), infos, n, request[n]);
        if n !in partitions { return Err(PartitionNotFound); }
        if !(request[n] <= infos.Keys) { return Err(DeclaredSectorsNotFound); }
        if !(request[n] <= partitions[n].faults) { return Err(DeclaredSectorsNotFaulty); }
        partitions := partitions[n := Partitions.DeclareFaultsRecovered(partitions[n], request[n])];
        assert one == Ok(State());
        todo := todo - {n};
      }
      return Ok(());
    }

    method TerminateIn(block: nat, infos: Infos, n: nat, numbers: set<nat>) returns (r: Result<(), Error>)
      modifies this
      ensures var s := Spec.TerminateOne(old(State()), block, infos, n, numbers);
              r == (if s.Ok? then Ok(()) else Err(s.error)) && (s.Ok? ==> State() == s.value)
    {
      if n !in partitions { return Err(PartitionNotFound); }
      var removed := Partitions.TerminateSectors(partitions[n], block, infos, numbers);
      if removed.Err? { return Err(removed.error); }
      r := Ok(());
      RecordTermination(n, removed.value.0, removed.value.1);
    }

    /** Stores the partition and, if sectors were removed, marks it and counts them out. */
    method RecordTermination(n: nat, p: Partition, removed: ExpirationSet)
      modifies this
      ensures State() == (if removed.IsEmpty() then old(State()).(partitions := old(partitions)[n := p])
                          else old(State()).(partitions := old(partitions)[n := p],
                                             earlyTerminations := old(earlyTerminations) + {n},
                                             liveSectors := old(liveSectors) - removed.Len()))
    {
      partitions := partitions[n := p];
      if !removed.IsEmpty() {
        earlyTerminations := earlyTerminations + {n};
        liveSectors := liveSectors - removed.Len();
      }
    }

    method TerminateSectors(block: nat, infos: Infos, request: Spec.Request) returns (r: Result<(), Error>)
      modifies this
      ensures var s := Spec.TerminateSectors(old(State()), block, infos, request, request.Keys);
              if s.Ok? then r.Ok? && State() == s.value else r == Err(s.error)
    {
      var todo := request.Keys;
      while todo != {}
        invariant todo <= request.Keys
        invariant Spec.TerminateSectors(State(), block, infos, request, todo)
               == Spec.TerminateSectors(old(State()), block, infos, request, request.Keys)
        decreases todo
      {
        var n := Least(todo);
        var done := TerminateIn(block, infos, n, request[n]);
        if done.Err? { return done; }
        todo := todo - {n};
      }
      return Ok(());
    }

    method RecordProven(infos: Infos, numbers: seq<nat>) returns (r: Result<(), Error>)
      requires Spec.RecoveriesKnown(State(), infos)
      modifies this
      ensures var s := Spec.RecordProven(old(State()), infos, numbers);
              if s.Ok? then r.Ok? && State() == s.value else r == Err(s.error)
    {
      assert numbers[0..] == numbers;
      for i := 0 to |numbers|
        invariant Spec.RecoveriesKnown(State(), infos)
        invariant Spec.RecordProven(State(), infos, numbers[i..]) == Spec.RecordProven(old(State()), infos, numbers)
      {
        var n := numbers[i];
        ghost var one := Spec.RecordProvenOne(State(), infos, n);
        assert numbers[i..][1..] == numbers[i + 1..];
        if n !in partitions { return Err(PartitionNotFound); }
        if n in posted { return Err(PartitionAlreadyProven); }
        posted := posted + {n};
        var recovered := Partitions.RecoverAllDeclaredRecoveries(partitions[n], infos);
        if recovered.Err? { return Err(recovered.error); }
        partitions := partitions[n := recovered.value.(unproven := {})];
        assert one == Ok(State());
      }
      return Ok(());
    }

    /** Takes the blocks up to `until` off the index; the partitions listed for them, in block order. */
    method PopExpiredPartitions(until: nat) returns (numbers: seq<nat>)
      modifies this`expirationsBlocks
      ensures var due := Spec.DueBlocks(old(expirationsBlocks), until);
              numbers == Spec.Listed(old(expirationsBlocks), due) && expirationsBlocks == old(expirationsBlocks) - due
    {
      var due := set b | b in expirationsBlocks && b <= until;
      numbers := [];
      var todo := due;
      while todo != {}
        invariant todo <= due && numbers + Spec.Listed(expirationsBlocks, todo) == Spec.Listed(expirationsBlocks, due)
        decreases todo
      {
        var b := Least(todo);
        assert numbers + ([expirationsBlocks[b]] + Spec.Listed(expirationsBlocks, todo - {b}))
            == numbers + [expirationsBlocks[b]] + Spec.Listed(expirationsBlocks, todo - {b});
        numbers := numbers + [expirationsBlocks[b]];
        todo := todo - {b};
      }
      assert numbers + [] == numbers;
      expirationsBlocks := expirationsBlocks - due;
    }

    /** Expires the listed partitions one after the other. */
    method ExpirePartitions(numbers: seq<nat>, until: nat) returns (r: Result<(set<nat>, ExpirationSet), Error>)
      modifies this`partitions
      ensures var s := Spec.ExpireAll(old(partitions), numbers, until);
              && r == (if s.Ok? then Ok((s.value.marked, s.value.popped)) else Err(s.error))
              && (s.Ok? ==> partitions == s.value.partitions)
    {
      var marked, onTime, early := {}, {}, {};
      for i := 0 to |numbers|
        invariant Spec.ExpireAll(old(partitions), numbers[..i], until)
               == Ok(Spec.Expired(partitions, marked, ExpirationSet(onTime, early)))
      {
        var n := numbers[i];
        assert numbers[..i + 1][..i] == numbers[..i];
        if n !in partitions {
          ExpireFails(old(partitions), numbers, i + 1, until);
          return Err(PartitionNotFound);
        }
        var expired := Partitions.PopExpiredSectors(partitions[n], until);
        if expired.Err? {
          ExpireFails(old(partitions), numbers, i + 1, until);
          return Err(expired.error);
        }
        partitions := partitions[n := expired.value.0];
        marked := marked + (if expired.value.1.early != {} then {n} else {});
        onTime, early := onTime + expired.value.1.onTime, early + expired.value.1.early;
      }
      assert numbers[..|numbers|] == numbers;
      return Ok((marked, ExpirationSet(onTime, early)));
    }

    method PopExpiredSectors(until: nat) returns (r: Result<ExpirationSet, Error>)
      modifies this
      ensures var s := Spec.PopExpiredSectors(old(State()), until);
              r == (if s.Ok? then Ok(s.value.1) else Err(s.error)) && (s.Ok? ==> State() == s.value.0)
    {
      var numbers := PopExpiredPartitions(until);
      Spec.ExpiryIs(old(State()), until, Spec.DueBlocks(old(expirationsBlocks), until), numbers,
                    Spec.ExpireAll(old(partitions), numbers, until));
      if numbers == [] { return Ok(EMPTY_SET); }
      r := ExpireListed(numbers, until);
    }

    method ExpireListed(numbers: seq<nat>, until: nat) returns (r: Result<ExpirationSet, Error>)
      modifies this`partitions, this`earlyTerminations, this`liveSectors
      ensures var s := Spec.ExpireAll(old(partitions), numbers, until);
              && r == (if s.Ok? then Ok(s.value.popped) else Err(s.error))
              && (s.Ok? ==> && partitions == s.value.partitions
                            && earlyTerminations == old(earlyTerminations) + s.value.marked
                            && liveSectors == old(liveSectors) - (|s.value.popped.onTime| + |s.value.popped.early|))
    {
      var expired := ExpirePartitions(numbers, until);
      if expired.Err? { return Err(expired.error); }
      var (marked, popped) := expired.value;
      earlyTerminations := earlyTerminations + marked;
      liveSectors := liveSectors - (|popped.onTime| + |popped.early|);
      return Ok(popped);
    }

    /** The deadline with the finished partitions unmarked. */
    ghost function Unmarked(finished: set<nat>): Spec.Deadline
      reads this
    {
      State().(earlyTerminations := earlyTerminations - finished)
    }

    /** Pops marked partitions in order until a limit is reached; those left with nothing are unmarked at the end. */
    method PopEarlyTerminations(maxPartitions: nat, maxSectors: nat)
        returns (result: Spec.TerminationResult, more: bool)
      modifies this
      ensures (State(), result, more) == Spec.PopEarlyTerminations(old(State()), maxPartitions, maxSectors)
    {
      var finished, todo, full := {}, earlyTerminations, false;
      result := Spec.NO_TERMINATIONS;
      ghost var goal := PopStarts(State(), maxPartitions, maxSectors);
      assert Unmarked({}) == State();
      while todo != {} && !full
        invariant full ==> goal == (Unmarked(finished), result)
        invariant !full ==> Popping(goal, Unmarked(finished), todo, maxPartitions, maxSectors, result)
        decreases todo
      {
        var n := Least(todo);
        if n !in partitions {
          PopSkips(goal, Unmarked(finished), todo, maxPartitions, maxSectors, result);
          assert earlyTerminations - finished - {n} == earlyTerminations - (finished + {n});
          todo, finished := todo - {n}, finished + {n};
          continue;
        }
        var max := maxSectors - result.sectorsProcessed;
        ghost var after, sum := PopTakes(goal, Unmarked(finished), n, todo, maxPartitions, maxSectors, result, max);
        var (p, popped, left) := Spec.PopPartition(partitions[n], max);
        assert earlyTerminations - finished - {n} == earlyTerminations - (finished + {n});
        result := result.Add(popped);
        if !left { finished := finished + {n}; }
        partitions := partitions[n := p];
        todo := todo - {n};
        full := !result.BelowLimit(maxPartitions, maxSectors);
      }
      if !full { PopEnds(goal, Unmarked(finished), maxPartitions, maxSectors, result); }
      PopIs(goal, old(State()), maxPartitions, maxSectors);
      earlyTerminations := earlyTerminations - finished;
      more := earlyTerminations != {};
    }
  }

  // ---------- the provider ----------

  ghost predicate PoppingAll(goal: Result<(Providers.Provider, Spec.TerminationResult), Error>, sp: Providers.Provider,
                             todo: set<nat>,
                             maxPartitions: nat, maxSectors: nat, so: Spec.TerminationResult)
  {
    && so.partitionsProcessed <= maxPartitions && so.sectorsProcessed <= maxSectors
    && goal == Providers.PopDeadlines(sp, todo, maxPartitions, maxSectors, so)
  }

  lemma {:induction false} AllStarts(sp: Providers.Provider, maxPartitions: nat, maxSectors: nat)
      returns (goal: Result<(Providers.Provider, Spec.TerminationResult), Error>)
    ensures PoppingAll(goal, sp, sp.earlyTerminations, maxPartitions, maxSectors, Spec.NO_TERMINATIONS)
  {
    goal := Providers.PopDeadlines(sp, sp.earlyTerminations, maxPartitions, maxSectors, Spec.NO_TERMINATIONS);
  }

  lemma {:induction false} AllIs(goal: Result<(Providers.Provider, Spec.TerminationResult), Error>,
                                 sp: Providers.Provider,
                                 maxPartitions: nat, maxSectors: nat)
    requires PoppingAll(goal, sp, sp.earlyTerminations, maxPartitions, maxSectors, Spec.NO_TERMINATIONS)
    ensures Providers.PopEarlyTerminations(sp, maxPartitions, maxSectors) == goal
  {
  }

  lemma {:induction false} AllEnds(goal: Result<(Providers.Provider, Spec.TerminationResult), Error>,
                                   sp: Providers.Provider,
                                   maxPartitions: nat, maxSectors: nat, so: Spec.TerminationResult)
    requires PoppingAll(goal, sp, {}, maxPartitions, maxSectors, so)
    ensures goal == Ok((sp, so))
  {
  }

  lemma {:induction false} AllFails(goal: Result<(Providers.Provider, Spec.TerminationResult), Error>,
                                    sp: Providers.Provider, todo: set<nat>,
                                    maxPartitions: nat, maxSectors: nat, so: Spec.TerminationResult)
    requires PoppingAll(goal, sp, todo, maxPartitions, maxSectors, so) && todo != {} && Least(todo) >= |sp.deadlines|
    ensures goal == Err(DeadlineIndexOutOfRange)
  {
  }

  lemma {:induction false} AllTakes(goal: Result<(Providers.Provider, Spec.TerminationResult), Error>,
                                    sp: Providers.Provider, i: nat, todo: set<nat>,
                                    maxPartitions: nat, maxSectors: nat, so: Spec.TerminationResult,
                                    leftPartitions: nat, leftSectors: nat)
      returns (sp': Providers.Provider, so': Spec.TerminationResult)
    requires PoppingAll(goal, sp, todo, maxPartitions, maxSectors, so) && todo != {} && i == Least(todo)
             && i < |sp.deadlines|
    requires leftPartitions == maxPartitions - so.partitionsProcessed && leftSectors == maxSectors - so.sectorsProcessed
    ensures sp' == Providers.AfterDeadlinePop(sp, i, leftPartitions, leftSectors)
    ensures so' == so.Add(Spec.PopEarlyTerminations(sp.deadlines[i], leftPartitions, leftSectors).1)
    ensures !so'.BelowLimit(maxPartitions, maxSectors) ==> goal == Ok((sp', so'))
    ensures so'.BelowLimit(maxPartitions, maxSectors)
            ==> PoppingAll(goal, sp', todo - {i}, maxPartitions, maxSectors, so')
  {
    var result;
    result, sp', so' := Providers.PopDeadlinesUnfold(sp, i, todo, maxPartitions, maxSectors, so, goal, leftPartitions,
                                                     leftSectors);
  }

  class StorageProviderState {
    var deadlines: seq<Spec.Deadline>
    var earlyTerminations: set<nat>

    constructor (n: nat)
      ensures deadlines == seq(n, _ => Spec.FRESH_DEADLINE) && earlyTerminations == {}
    {
      deadlines, earlyTerminations := seq(n, _ => Spec.FRESH_DEADLINE), {};
    }

    ghost function State(): Providers.Provider
      reads this
    {
      Providers.Provider(deadlines, earlyTerminations)
    }

    /** The provider with the deadlines in `unset` unmarked. */
    ghost function Unmarked(unset: set<nat>): Providers.Provider
      reads this
    {
      Providers.Provider(deadlines, earlyTerminations - unset)
    }

    /** Pops marked deadlines in order until a limit is reached; those left with nothing are unmarked at the end. */
    method PopEarlyTerminations(maxPartitions: nat, maxSectors: nat) returns (r: Result<Spec.TerminationResult, Error>)
      modifies this
      ensures var s := Providers.PopEarlyTerminations(old(State()), maxPartitions, maxSectors);
              r == (if s.Ok? then Ok(s.value.1) else Err(s.error)) && (s.Ok? ==> State() == s.value.0)
    {
      if earlyTerminations == {} { return Ok(Spec.NO_TERMINATIONS); }
      var unset: set<nat>, todo, full := {}, earlyTerminations, false;
      var result := Spec.NO_TERMINATIONS;
      ghost var goal := AllStarts(State(), maxPartitions, maxSectors);
      assert Unmarked({}) == State();
      while todo != {} && !full
        invariant full ==> goal == Ok((Unmarked(unset), result))
        invariant !full ==> PoppingAll(goal, Unmarked(unset), todo, maxPartitions, maxSectors, result)
        decreases todo
      {
        var i := Least(todo);
        if i >= |deadlines| {
          AllFails(goal, Unmarked(unset), todo, maxPartitions, maxSectors, result);
          AllIs(goal, old(State()), maxPartitions, maxSectors);
          return Err(DeadlineIndexOutOfRange);
        }
        var leftPartitions, leftSectors := maxPartitions - result.partitionsProcessed,
            maxSectors - result.sectorsProcessed;
        ghost var after, sum := AllTakes(goal, Unmarked(unset), i, todo, maxPartitions, maxSectors, result,
                                         leftPartitions, leftSectors);
        var (d, popped, more) := Spec.PopEarlyTerminations(deadlines[i], leftPartitions, leftSectors);
        assert earlyTerminations - unset - {i} == earlyTerminations - (unset + {i});
        deadlines := deadlines[i := d];
        result := result.Add(popped);
        if !more { unset := unset + {i}; }
        todo := todo - {i};
        full := !result.BelowLimit(maxPartitions, maxSectors);
      }
      if !full { AllEnds(goal, Unmarked(unset), maxPartitions, maxSectors, result); }
      AllIs(goal, old(State()), maxPartitions, maxSectors);
      earlyTerminations := earlyTerminations - unset;
      return Ok(result);
    }
  }
}
