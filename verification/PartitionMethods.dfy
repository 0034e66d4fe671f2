/** A partition as the object the pallet mutates (pallets/storage-provider/src/partition.rs), with its
    queue object: every method is proved to do to the fields what the partition functions say.
    After an error the caller discards the object, so errors say nothing about its state. */
module PartitionMethods {
  import opened Arith
  import opened Results
  import opened ExpirationQueue
  import opened EarlyTerminations
  import opened Deadlines
  import Spec = Partitions
  import Queues = QueueMethods

  // ---------- popping early terminations ----------

  /** What has been taken so far, joined with what the rest of the pop will do. */
  ghost function Joined(taken: Terminations, count: nat, p: Popped): Popped {
    Popped(taken + p.taken, p.rest, count + p.count)
  }

  lemma {:induction false} JoinWhole(taken: Terminations, count: nat, more: Popped, b: nat, s: set<nat>)
    requires b !in more.taken && b !in taken
    ensures Joined(taken, count, Popped(more.taken[b := s], more.rest, more.count + |s|))
            == Joined(taken[b := s], count + |s|, more)
  {
    assert taken + more.taken[b := s] == taken[b := s] + more.taken;
  }

  /** A whole block taken off the front. */
  lemma {:induction false} PopWhole(t: Terminations, taken: Terminations, count: nat, max: nat)
    requires t != map[] && taken.Keys !! t.Keys && |t[Least(t.Keys)]| < max
    ensures var b := Least(t.Keys);
            Joined(taken, count, Pop(t, max)) == Joined(taken[b := t[b]], count + |t[b]|, Pop(t - {b}, max - |t[b]|))
  {
    var b := Least(t.Keys);
    var more := Pop(t - {b}, max - |t[b]|);
    assert b !in more.taken by { PopSplits(t - {b}, max - |t[b]|); }
    assert b !in taken;
    JoinWhole(taken, count, more, b, t[b]);
  }

  lemma {:induction false} PopPart(t: Terminations, taken: Terminations, count: nat, max: nat)
    requires t != map[] && taken.Keys !! t.Keys && |t[Least(t.Keys)]| >= max
    ensures var b := Least(t.Keys);
            var part := Lowest(t[b], max);
            Joined(taken, count, Pop(t, max))
            == Popped(taken[b := part], if |t[b]| > max then t[b := t[b] - part] else t - {b}, count + max)
  {
    var b := Least(t.Keys);
    var part := Lowest(t[b], max);
    if |t[b]| == max { WholeSet(t[b], part); }
    assert taken + map[b := part] == taken[b := part];
  }

  lemma {:induction false} WholeSet(s: set<nat>, part: set<nat>)
    requires part <= s && |part| == |s|
    ensures part == s
  {
    assert |s - part| == |s| - |part|;
  }

  class Partition {
    var sectors: set<nat>
    var unproven: set<nat>
    var faults: set<nat>
    var recoveries: set<nat>
    var terminated: set<nat>
    const expirations: Queues.ExpirationQueue
    var earlyTerminations: Terminations

    ghost function State(): Spec.Partition
      reads this, expirations
    {
      Spec.Partition(sectors, unproven, faults, recoveries, terminated, expirations.entries, earlyTerminations)
    }

    constructor ()
      ensures State() == Spec.EMPTY_PARTITION && fresh(expirations)
    {
      sectors, unproven, faults, recoveries, terminated := {}, {}, {}, {}, {};
      expirations := new Queues.ExpirationQueue();
      earlyTerminations := map[];
    }

    function LiveSectors(): (live: set<nat>)
      reads this
      ensures forall s :: s in live <==> s in sectors && s !in terminated
    {
      sectors - terminated
    }

    method AddSectors(items: seq<SectorInfo>) returns (r: Result<(), Error>)
      modifies this, expirations
      ensures var s := Spec.AddSectors(old(State()), items);
              if s.Ok? then r.Ok? && State() == s.value else r == Err(s.error)
    {
      expirations.AddActiveSectors(items);
      ghost var p := old(State());
      for i := 0 to |items|
        invariant expirations.entries == AddActive(p.expirations, set x | x in items)
        invariant !Spec.Duplicated(p, items[..i])
        invariant sectors == p.sectors + Spec.Numbers(items[..i]) && unproven == p.unproven + Spec.Numbers(items[..i])
        invariant State() == p.(expirations := expirations.entries, sectors := sectors, unproven := unproven)
      {
        if items[i].number in sectors {
          assert Spec.Duplicated(p, items) by {
            if items[i].number !in p.sectors {
              var x :| x in items[..i] && x.number == items[i].number;
            }
          }
          return Err(DuplicateSectorNumber);
        }
        assert items[..i + 1] == items[..i] + [items[i]];
        sectors, unproven := sectors + {items[i].number}, unproven + {items[i].number};
      }
      assert items[..|items|] == items;
      return Ok(());
    }

    method AddFaults(infos: Infos, block: nat) returns (r: Result<(), Error>)
      modifies this, expirations
      ensures var s := Spec.AddFaults(old(State()), infos, block);
              if s.Ok? then r.Ok? && State() == s.value else r == Err(s.error)
    {
      var moved := expirations.RescheduleAsFaults(block, infos);
      if moved.Err? { return Err(FailedToAddFaults); }
      faults := faults + infos.Keys;
      unproven := unproven - infos.Keys;
      return Ok(());
    }

    method RecordFaults(infos: Infos, numbers: set<nat>, block: nat) returns (r: Result<set<nat>, Error>)
      modifies this, expirations
      ensures var s := Spec.RecordFaults(old(State()), infos, numbers, block);
              if s.Ok? then r == Ok(s.value.1) && State() == s.value.0 else r == Err(s.error)
    {
      var retracted := recoveries * numbers;
      var newFaults := set s | s in numbers && s !in retracted && s !in terminated && s !in faults;
      assert newFaults == Spec.NewFaults(State(), numbers);
      var newInfos := Spec.Restrict(infos, newFaults);
      if newInfos != map[] {
        var added := AddFaults(newInfos, block);
        if added.Err? { return Err(added.error); }
      }
      var retractedKnown := retracted * infos.Keys;
      if retractedKnown != {} { recoveries := recoveries - retractedKnown; }
      return Ok(newFaults);
    }

    method DeclareFaultsRecovered(numbers: set<nat>)
      modifies this
      ensures State() == Spec.DeclareFaultsRecovered(old(State()), numbers)
    {
      recoveries := recoveries + numbers * faults;
    }

    method RecoverAllDeclaredRecoveries(infos: Infos) returns (r: Result<(), Error>)
      requires recoveries <= infos.Keys
      modifies this, expirations
      ensures var s := Spec.RecoverAllDeclaredRecoveries(old(State()), infos);
              if s.Ok? then r.Ok? && State() == s.value else r == Err(s.error)
    {
      var moved := expirations.RescheduleRecovered(infos, recoveries);
      if moved.Err? { return Err(FailedToRemoveRecoveries); }
      faults := faults - recoveries;
      recoveries := {};
      return Ok(());
    }

    method RecordEarlyTerminations(block: nat, numbers: set<nat>)
      modifies this
      ensures State() == old(State()).(earlyTerminations := old(earlyTerminations)[block := numbers])
    {
      earlyTerminations := earlyTerminations[block := numbers];
    }

    method TerminateSectors(block: nat, infos: Infos, numbers: set<nat>) returns (r: Result<ExpirationSet, Error>)
      modifies this, expirations
      ensures var s := Spec.TerminateSectors(old(State()), block, infos, numbers);
              if s.Ok? then r == Ok(s.value.1) && State() == s.value.0 else r == Err(s.error)
    {
      if numbers - LiveSectors() != {} {
        assert !(numbers <= LiveSectors());
        return Err(SectorsNotLive);
      }
      forall s | s in numbers ensures s in State().Live() { assert s !in numbers - LiveSectors(); }
      var removed := expirations.RemoveSectors(Spec.Restrict(infos, numbers), faults);
      if removed.Err? { return Err(removed.error); }
      var gone := removed.value.onTime + removed.value.early;
      RecordEarlyTerminations(block, gone);
      faults, recoveries, terminated, unproven := faults - gone, recoveries - gone, terminated + gone, unproven - gone;
      return removed;
    }

    method PopExpiredSectors(until: nat) returns (r: Result<ExpirationSet, Error>)
      modifies this, expirations
      ensures var s := Spec.PopExpiredSectors(old(State()), until);
              if s.Ok? then r == Ok(s.value.1) && State() == s.value.0 else r == Err(s.error)
    {
      if unproven != {} { return Err(CannotPopUnprovenSectors); }
      var popped := expirations.PopUntil(until);
      var expired := popped.onTime + popped.early;
      if recoveries != {} { return Err(UnexpectedRecoveries); }
      if terminated * expired != {} { return Err(ExpiredSectorsAlreadyTerminated); }
      terminated, faults := terminated + expired, faults - expired;
      RecordEarlyTerminations(until, popped.early);
      return Ok(popped);
    }

    /** Takes recorded terminations, oldest block first and lowest sectors first, up to the limit. */
    method PopEarlyTerminations(max: nat) returns (result: TerminationResult, more: bool)
      modifies this
      ensures (State(), result, more) == Deadlines.PopPartition(old(State()), max)
    {
      var taken, processed, left, count := CollectTerminations(earlyTerminations, max);
      if left.Some? { earlyTerminations := earlyTerminations[left.value.1 := left.value.0]; }
      earlyTerminations := earlyTerminations - processed;
      result, more := TerminationResult(taken, 1, count), earlyTerminations != map[];
    }
  }

  /** What remains recorded when some blocks are done with and one may be left in part. */
  ghost function Remaining(t: Terminations, processed: set<nat>, left: Option<(set<nat>, nat)>): Terminations {
    (if left.Some? then t[left.value.1 := left.value.0] else t) - processed
  }

  /** With the processed blocks taken and those in todo to come, the rest of the pop completes the goal. */
  ghost predicate OnCourse(goal: Popped, t: Terminations, max: nat, taken: Terminations, processed: set<nat>,
                           count: nat, todo: set<nat>) {
    && count <= max && (t - processed).Keys == todo && taken.Keys !! todo
    && Joined(taken, count, Pop(t - processed, max - count)) == goal
  }

  lemma {:induction false} StayOnCourse(goal: Popped, t: Terminations, max: nat, taken: Terminations,
                                        processed: set<nat>, count: nat, todo: set<nat>, b: nat)
    requires OnCourse(goal, t, max, taken, processed, count, todo) && todo != {} && b == Least(todo)
    requires |t[b]| < max - count
    ensures OnCourse(goal, t, max, taken[b := t[b]], processed + {b}, count + |t[b]|, todo - {b})
  {
    PopWhole(t - processed, taken, count, max - count);
    assert t - processed - {b} == t - (processed + {b});
  }

  /** The last block is taken in part. */
  lemma {:induction false} FinishPart(goal: Popped, t: Terminations, max: nat, taken: Terminations,
                                      processed: set<nat>, count: nat, todo: set<nat>,
                                      b: nat, part: set<nat>)
    requires OnCourse(goal, t, max, taken, processed, count, todo) && todo != {} && b == Least(todo)
    requires |t[b]| > max - count && part == Lowest(t[b], max - count)
    ensures goal == Popped(taken[b := part], Remaining(t, processed, Some((t[b] - part, b))), max)
  {
    PopPart(t - processed, taken, count, max - count);
    assert (t - processed)[b := t[b] - part] == t[b := t[b] - part] - processed;
  }

  /** The last block is taken whole and meets the limit exactly. */
  lemma {:induction false} FinishWhole(goal: Popped, t: Terminations, max: nat, taken: Terminations,
                                       processed: set<nat>, count: nat, todo: set<nat>, b: nat)
    requires OnCourse(goal, t, max, taken, processed, count, todo) && todo != {} && b == Least(todo)
    requires |t[b]| == max - count
    ensures goal == Popped(taken[b := t[b]], Remaining(t, processed + {b}, None), max)
  {
    PopPart(t - processed, taken, count, max - count);
    WholeSet(t[b], Lowest(t[b], max - count));
    assert t - processed - {b} == t - (processed + {b});
  }

  lemma {:induction false} StartCourse(t: Terminations, max: nat) returns (goal: Popped)
    ensures OnCourse(goal, t, max, map[], {}, 0, t.Keys)
  {
    goal := Joined(map[], 0, Pop(t - {}, max));
    assert t - {} == t;
  }

  lemma {:induction false} CourseIsPop(goal: Popped, t: Terminations, max: nat)
    requires OnCourse(goal, t, max, map[], {}, 0, t.Keys)
    ensures goal == Pop(t, max)
  {
    assert t - {} == t && map[] + Pop(t, max).taken == Pop(t, max).taken;
  }

  lemma {:induction false} EndCourse(goal: Popped, t: Terminations, max: nat, taken: Terminations, processed: set<nat>,
                                     count: nat)
    requires OnCourse(goal, t, max, taken, processed, count, {})
    ensures goal == Popped(taken, Remaining(t, processed, None), count)
  {
    assert t - processed == map[] && taken + map[] == taken;
  }

  method CollectTerminations(t: Terminations, max: nat)
      returns (taken: Terminations, processed: set<nat>, left: Option<(set<nat>, nat)>, count: nat)
    ensures Popped(taken, Remaining(t, processed, left), count) == Pop(t, max)
  {
    taken, processed, left, count := map[], {}, None, 0;
    var todo, full := t.Keys, false;
    ghost var goal := StartCourse(t, max);
    while todo != {} && !full
      invariant !full ==> left.None? && OnCourse(goal, t, max, taken, processed, count, todo)
      invariant full ==> goal == Popped(taken, Remaining(t, processed, left), count)
      decreases todo
    {
      var b, limit := Least(todo), max - count;
      if limit < |t[b]| {
        var part := Lowest(t[b], limit);
        FinishPart(goal, t, max, taken, processed, count, todo, b, part);
        left := Some((t[b] - part, b));
        count, taken := count + limit, taken[b := part];
      } else {
        if limit == |t[b]| {
          FinishWhole(goal, t, max, taken, processed, count, todo, b);
        } else {
          StayOnCourse(goal, t, max, taken, processed, count, todo, b);
        }
        processed := processed + {b};
        count, taken := count + |t[b]|, taken[b := t[b]];
      }
      todo := todo - {b};
      full := count >= max;
    }
    if !full { EndCourse(goal, t, max, taken, processed, count); }
    CourseIsPop(goal, t, max);
  }
}
