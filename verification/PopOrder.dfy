/** In which order early terminations are popped and where a bounded pop stops: oldest blocks, lowest sectors,
    lowest partitions and lowest deadlines first, and not before a limit is used up or nothing is left. */
module PopOrder {
  import opened Arith
  import opened Results
  import opened EarlyTerminations
  import opened Deadlines
  import opened Providers

  // ---------- one partition ----------

  /** Later blocks are left alone while an earlier one has sectors, and within a block the lowest go first. */
  ghost predicate OldestFirst(taken: Terminations, rest: Terminations) {
    && (forall b, c :: b in rest && c in taken && b < c && rest[b] != {} ==> taken[c] == {})
    && (forall b, x, y :: b in rest && b in taken && x in taken[b] && y in rest[b] ==> x < y)
  }

  lemma {:induction false} PopOldestFirst(t: Terminations, max: nat)
    ensures OldestFirst(Pop(t, max).taken, Pop(t, max).rest)
    decreases t.Keys
  {
    if t != map[] {
      var b := Least(t.Keys);
      assert (t - {b}).Keys == t.Keys - {b};
      if |t[b]| < max {
        PopOldestFirst(t - {b}, max - |t[b]|);
        PopSplits(t - {b}, max - |t[b]|);
      }
    }
  }

  // ---------- one deadline ----------

  /** Partitions outside todo keep their state and their mark. */
  ghost predicate Kept(d: Deadline, d': Deadline, todo: set<nat>) {
    && d'.partitions.Keys == d.partitions.Keys
    && forall n :: n !in todo ==> Stays(d, d', n)
  }

  ghost predicate Stays(d: Deadline, d': Deadline, n: nat) {
    (n in d'.earlyTerminations <==> n in d.earlyTerminations)
    && PartitionAt(d'.partitions, n) == PartitionAt(d.partitions, n)
  }

  /** While a partition of todo is marked, the higher ones have not been touched. */
  ghost predicate InTurn(d: Deadline, d': Deadline, todo: set<nat>) {
    forall m, n :: m in todo && n in todo && m < n && m in d'.earlyTerminations ==> Stays(d, d', n)
  }

  /** The partitions of todo that were popped: their mark is gone or their record has changed. */
  ghost function Visited(d: Deadline, d': Deadline, todo: set<nat>): set<nat> {
    set n | n in todo && n in d.partitions && !Stays(d, d', n)
  }

  /** A pop that went through todo: how far it came and that it stopped at a limit unless it came through. */
  ghost predicate Stops(d: Deadline, todo: set<nat>, so: TerminationResult, r: (Deadline, TerminationResult),
                        maxPartitions: nat, maxSectors: nat) {
    && Kept(d, r.0, todo) && InTurn(d, r.0, todo)
    && r.1.partitionsProcessed == so.partitionsProcessed + |Visited(d, r.0, todo)| <= maxPartitions
    && r.1.sectorsProcessed <= maxSectors
    && ((exists n :: n in todo && n in r.0.earlyTerminations) ==>
          r.1.partitionsProcessed == maxPartitions || r.1.sectorsProcessed == maxSectors)
  }

  /** What popping one marked partition does; it stays marked only if the sector limit was used up. */
  lemma {:induction false} AfterPopStep(d: Deadline, n: nat, max: nat, d': Deadline, count: nat)
    requires n in d.partitions && n in d.earlyTerminations && max > 0 && d' == AfterPop(d, n, max)
    requires count == PopPartition(d.partitions[n], max).1.sectorsProcessed
    ensures Kept(d, d', {n}) && d'.earlyTerminations <= d.earlyTerminations && !Stays(d, d', n)
    ensures count <= max && (n in d'.earlyTerminations ==> count == max)
  {
    PopCounts(d.partitions[n].earlyTerminations, max);
  }

  lemma {:induction false} StopsHere(d: Deadline, d1: Deadline, todo: set<nat>, n: nat)
    requires n in todo && (forall m :: m in todo ==> n <= m) && n in d.partitions
    requires Kept(d, d1, {n}) && !Stays(d, d1, n)
    ensures Kept(d, d1, todo) && InTurn(d, d1, todo) && |Visited(d, d1, todo)| == 1
  {
    assert Visited(d, d1, todo) == {n};
  }

  lemma {:induction false} StopsLater(d: Deadline, d1: Deadline, d': Deadline, todo: set<nat>, n: nat)
    requires n in todo && (forall m :: m in todo ==> n <= m) && Kept(d, d1, {n}) && n !in d1.earlyTerminations
    requires n in d.partitions ==> !Stays(d, d1, n)
    requires Kept(d1, d', todo - {n}) && InTurn(d1, d', todo - {n})
    ensures Kept(d, d', todo) && InTurn(d, d', todo) && n !in d'.earlyTerminations
    ensures Visited(d, d', todo) == Visited(d1, d', todo - {n}) + (if n in d.partitions then {n} else {})
  {
    forall m | m != n ensures Stays(d, d', m) <==> Stays(d1, d', m) { assert Stays(d, d1, m); }
    assert Stays(d1, d', n);
  }

  lemma {:induction false} PopMarkedStops(d: Deadline, todo: set<nat>, maxPartitions: nat, maxSectors: nat,
                                          so: TerminationResult, r: (Deadline, TerminationResult))
    requires todo <= d.earlyTerminations
    requires so.partitionsProcessed < maxPartitions && so.sectorsProcessed < maxSectors
    requires r == PopMarked(d, todo, maxPartitions, maxSectors, so)
    ensures Stops(d, todo, so, r, maxPartitions, maxSectors)
    decreases todo
  {
    if todo == {} {
      assert r == (d, so);
      assert Visited(d, d, todo) == {};
    } else {
      var n := Least(todo);
      if n !in d.partitions {
        var d1 := d.(earlyTerminations := d.earlyTerminations - {n});
        PopMarkedStops(d1, todo - {n}, maxPartitions, maxSectors, so, r);
        StopsLater(d, d1, r.0, todo, n);
      } else {
        var max := maxSectors - so.sectorsProcessed;
        var result, d1, so1 := PopMarkedUnfold(d, n, todo, maxPartitions, maxSectors, so, r, max);
        AfterPopStep(d, n, max, d1, result.sectorsProcessed);
        if so1.partitionsProcessed < maxPartitions && so1.sectorsProcessed < maxSectors {
          PopMarkedStops(d1, todo - {n}, maxPartitions, maxSectors, so1, r);
          StopsLater(d, d1, r.0, todo, n);
        } else {
          StopsHere(d, d1, todo, n);
        }
      }
    }
  }

  /** A deadline's pop with positive limits takes marked partitions in order and counts them.  If it leaves a
      mark, one of the two limits is used up. */
  lemma {:induction false} DeadlinePopStops(d: Deadline, maxPartitions: nat, maxSectors: nat,
                                            r: (Deadline, TerminationResult, bool))
    requires maxPartitions > 0 && maxSectors > 0 && r == Deadlines.PopEarlyTerminations(d, maxPartitions, maxSectors)
    ensures Kept(d, r.0, d.earlyTerminations) && InTurn(d, r.0, d.earlyTerminations)
    ensures r.1.partitionsProcessed == |Visited(d, r.0, d.earlyTerminations)| <= maxPartitions
    ensures r.1.sectorsProcessed <= maxSectors && (r.2 <==> r.0.earlyTerminations != {})
    ensures r.2 ==> r.1.partitionsProcessed == maxPartitions || r.1.sectorsProcessed == maxSectors
  {
    PopMarkedStops(d, d.earlyTerminations, maxPartitions, maxSectors, NO_TERMINATIONS, (r.0, r.1));
    if r.2 {
      var n :| n in r.0.earlyTerminations;
      assert n !in d.earlyTerminations ==> !Stays(d, r.0, n);
    }
  }

  // ---------- the provider ----------

  ghost predicate StaysAt(sp: Provider, sp': Provider, i: nat) {
    && (i in sp'.earlyTerminations <==> i in sp.earlyTerminations)
    && (i < |sp.deadlines| && i < |sp'.deadlines| ==> sp'.deadlines[i] == sp.deadlines[i])
  }

  /** Deadlines outside todo keep their state and their mark. */
  ghost predicate KeptAt(sp: Provider, sp': Provider, todo: set<nat>) {
    |sp'.deadlines| == |sp.deadlines| && forall i :: i !in todo ==> StaysAt(sp, sp', i)
  }

  /** While a deadline of todo is marked, the later ones have not been touched. */
  ghost predicate InTurnAt(sp: Provider, sp': Provider, todo: set<nat>) {
    forall i, j :: i in todo && j in todo && i < j && i in sp'.earlyTerminations ==> StaysAt(sp, sp', j)
  }

  /** The partitions popped in a deadline, and in the first n deadlines. */
  ghost function PoppedIn(d: Deadline, d': Deadline): nat {
    |Visited(d, d', d.earlyTerminations)|
  }

  ghost function PoppedInAll(sp: Provider, sp': Provider, n: nat): nat
    requires n <= |sp.deadlines| == |sp'.deadlines|
  {
    if n == 0 then 0 else PoppedInAll(sp, sp', n - 1) + PoppedIn(sp.deadlines[n - 1], sp'.deadlines[n - 1])
  }

  lemma {:induction false} NonePopped(sp: Provider, n: nat)
    requires n <= |sp.deadlines|
    ensures PoppedInAll(sp, sp, n) == 0
  {
    if n > 0 {
      NonePopped(sp, n - 1);
      var d := sp.deadlines[n - 1];
      assert Visited(d, d, d.earlyTerminations) == {};
    }
  }

  /** Popping deadline i first and the others later. */
  lemma {:induction false} PoppedBoth(sp: Provider, sp1: Provider, sp': Provider, i: nat, n: nat)
    requires n <= |sp.deadlines| == |sp1.deadlines| == |sp'.deadlines| && i < |sp.deadlines|
    requires sp1.deadlines == sp.deadlines[i := sp1.deadlines[i]] && sp'.deadlines[i] == sp1.deadlines[i]
    ensures PoppedInAll(sp, sp', n) ==
            PoppedInAll(sp1, sp', n) + if i < n then PoppedIn(sp.deadlines[i], sp1.deadlines[i]) else 0
  {
    if n > 0 {
      PoppedBoth(sp, sp1, sp', i, n - 1);
      if n - 1 == i {
        var d := sp1.deadlines[i];
        assert Visited(d, d, d.earlyTerminations) == {};
      }
    }
  }

  ghost predicate ProviderStops(sp: Provider, todo: set<nat>, so: TerminationResult, sp': Provider,
                                result: TerminationResult, maxPartitions: nat, maxSectors: nat) {
    && KeptAt(sp, sp', todo) && InTurnAt(sp, sp', todo)
    && result.partitionsProcessed == so.partitionsProcessed + PoppedInAll(sp, sp', |sp.deadlines|) <= maxPartitions
    && result.sectorsProcessed <= maxSectors
    && ((exists i :: i in todo && i in sp'.earlyTerminations) ==>
          result.partitionsProcessed == maxPartitions || result.sectorsProcessed == maxSectors)
  }

  /** What popping one marked deadline does; it stays marked only if a limit was used up. */
  lemma {:induction false} AfterDeadlineStep(sp: Provider, i: nat, maxPartitions: nat, maxSectors: nat, sp': Provider,
                                             result: TerminationResult)
    requires i < |sp.deadlines| && i in sp.earlyTerminations && maxPartitions > 0 && maxSectors > 0
    requires sp' == AfterDeadlinePop(sp, i, maxPartitions, maxSectors)
    requires result == Deadlines.PopEarlyTerminations(sp.deadlines[i], maxPartitions, maxSectors).1
    ensures KeptAt(sp, sp', {i}) && sp'.deadlines == sp.deadlines[i := sp'.deadlines[i]]
    ensures result.partitionsProcessed == PoppedIn(sp.deadlines[i], sp'.deadlines[i]) <= maxPartitions
    ensures result.sectorsProcessed <= maxSectors
    ensures i in sp'.earlyTerminations ==>
              result.partitionsProcessed == maxPartitions || result.sectorsProcessed == maxSectors
  {
    var r := Deadlines.PopEarlyTerminations(sp.deadlines[i], maxPartitions, maxSectors);
    DeadlinePopStops(sp.deadlines[i], maxPartitions, maxSectors, r);
  }

  lemma {:induction false} TurnsJoin(sp: Provider, sp1: Provider, sp': Provider, todo: set<nat>, i: nat)
    requires i in todo && (forall j :: j in todo ==> i <= j) && KeptAt(sp, sp1, {i}) && i !in sp1.earlyTerminations
    requires KeptAt(sp1, sp', todo - {i}) && InTurnAt(sp1, sp', todo - {i})
    ensures KeptAt(sp, sp', todo) && InTurnAt(sp, sp', todo) && i !in sp'.earlyTerminations
  {
    forall j | j != i ensures StaysAt(sp, sp', j) <==> StaysAt(sp1, sp', j) { assert StaysAt(sp, sp1, j); }
    assert StaysAt(sp1, sp', i);
  }

  lemma {:induction false} PopDeadlinesStop(sp: Provider, todo: set<nat>, maxPartitions: nat, maxSectors: nat,
                                            so: TerminationResult, sp': Provider, result: TerminationResult)
    requires todo <= sp.earlyTerminations
    requires so.partitionsProcessed < maxPartitions && so.sectorsProcessed < maxSectors
    requires PopDeadlines(sp, todo, maxPartitions, maxSectors, so) == Ok((sp', result))
    ensures ProviderStops(sp, todo, so, sp', result, maxPartitions, maxSectors)
    decreases todo
  {
    if todo == {} {
      NonePopped(sp, |sp.deadlines|);
    } else {
      var i := Least(todo);
      var leftPartitions, leftSectors := maxPartitions - so.partitionsProcessed, maxSectors - so.sectorsProcessed;
      var r := PopDeadlines(sp, todo, maxPartitions, maxSectors, so);
      var one, sp1, so1 := PopDeadlinesUnfold(sp, i, todo, maxPartitions, maxSectors, so, r, leftPartitions,
                                              leftSectors);
      AfterDeadlineStep(sp, i, leftPartitions, leftSectors, sp1, one);
      if so1.partitionsProcessed < maxPartitions && so1.sectorsProcessed < maxSectors {
        PopDeadlinesStop(sp1, todo - {i}, maxPartitions, maxSectors, so1, sp', result);
        TurnsJoin(sp, sp1, sp', todo, i);
        assert StaysAt(sp1, sp', i);
      } else {
        NonePopped(sp1, |sp.deadlines|);
      }
      PoppedBoth(sp, sp1, sp', i, |sp.deadlines|);
    }
  }

  /** A provider's pop with positive limits takes marked deadlines in order and counts the partitions popped.
      If it leaves a mark, one of the two limits is used up. */
  lemma {:induction false} ProviderPopStops(sp: Provider, maxPartitions: nat, maxSectors: nat, sp': Provider,
                                            result: TerminationResult)
    requires maxPartitions > 0 && maxSectors > 0
    requires Providers.PopEarlyTerminations(sp, maxPartitions, maxSectors) == Ok((sp', result))
    ensures KeptAt(sp, sp', sp.earlyTerminations) && InTurnAt(sp, sp', sp.earlyTerminations)
    ensures result.partitionsProcessed == PoppedInAll(sp, sp', |sp.deadlines|) <= maxPartitions
    ensures result.sectorsProcessed <= maxSectors
    ensures sp'.earlyTerminations != {} ==>
              result.partitionsProcessed == maxPartitions || result.sectorsProcessed == maxSectors
  {
    if sp.earlyTerminations == {} {
      NonePopped(sp, |sp.deadlines|);
    } else {
      PopDeadlinesStop(sp, sp.earlyTerminations, maxPartitions, maxSectors, NO_TERMINATIONS, sp', result);
      if i :| i in sp'.earlyTerminations { assert i !in sp.earlyTerminations ==> !StaysAt(sp, sp', i); }
    }
  }
}
