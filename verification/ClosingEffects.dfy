/** What the end-of-block check does to the deadline it closes: partitions without a proof become faulty, the
    proofs of the window are forgotten, and what is due by the deadline's last block expires. */
module ClosingEffects {
  import opened Arith
  import opened Results
  import opened ExpirationQueue
  import opened Partitions
  import opened Deadlines
  import opened DeadlineSpec
  import opened DeadlineEffects
  import opened Providers
  import opened ProviderRun
  import opened EndOfBlock
  import PE = PartitionEffects

  /** Every partition of todo that was not proven has all its live sectors faulty, and the others are unchanged. */
  ghost predicate AllMissed(parts: Parts, parts': Parts, posted: set<nat>, infos: Infos, todo: set<nat>, block: nat) {
    && parts'.Keys == parts.Keys
    && forall n :: n in parts ==>
         if n in todo && n !in posted then PE.Faulted(parts[n], parts'[n], infos, parts[n].sectors, block)
         else parts'[n] == parts[n]
  }

  lemma {:induction false} MissOneEffect(d: Deadline, infos: Infos, size: nat, n: nat, block: nat, d': Deadline)
    requires Valid(d, infos, size) && n in d.partitions && d' == MissOne(d, infos, n, block)
    ensures d' == d.(partitions := d'.partitions)
    ensures AllMissed(d.partitions, d'.partitions, d.posted, infos, {n}, block)
  {
    PartitionValid(d, infos, size, n);
    assert d.partitions[n].sectors != {};
    var p' := MissedFacts(d.partitions[n], infos, block);
    MissOneIs(d, infos, n, block, p');
    PE.DeclaringFaults(d.partitions[n], infos, d.partitions[n].sectors, block, p');
    OneMissed(d.partitions, d.posted, infos, n, p', block);
  }

  lemma {:induction false} OneMissed(parts: Parts, posted: set<nat>, infos: Infos, n: nat, p': Partition, block: nat)
    requires n in parts && PE.Faulted(parts[n], p', infos, parts[n].sectors, block)
    ensures AllMissed(parts, if n in posted then parts else parts[n := p'], posted, infos, {n}, block)
  {
  }

  lemma {:induction false} MissedJoin(parts: Parts, parts1: Parts, parts': Parts, posted: set<nat>, infos: Infos,
                                      todo: set<nat>, n: nat, block: nat)
    requires n in todo && AllMissed(parts, parts1, posted, infos, {n}, block)
    requires AllMissed(parts1, parts', posted, infos, todo - {n}, block)
    ensures AllMissed(parts, parts', posted, infos, todo, block)
  {
    assert forall m :: m in todo <==> m in {n} || m in todo - {n};
  }

  lemma {:induction false} MissAllEffect(d: Deadline, infos: Infos, size: nat, todo: set<nat>, block: nat, d': Deadline)
    requires Valid(d, infos, size) && todo <= d.partitions.Keys && d' == MissAll(d, infos, todo, block)
    ensures d' == d.(partitions := d'.partitions)
    ensures AllMissed(d.partitions, d'.partitions, d.posted, infos, todo, block)
    decreases todo
  {
    if todo != {} {
      var n := Least(todo);
      var d1 := MissOne(d, infos, n, block);
      MissOneKeeps(d, infos, size, n, block);
      MissOneEffect(d, infos, size, n, block, d1);
      MissAllEffect(d1, infos, size, todo - {n}, block, d');
      MissedJoin(d.partitions, d1.partitions, d'.partitions, d.posted, infos, todo, n, block);
    }
  }

  lemma {:induction false} CheckedEffect(d: Deadline, infos: Infos, size: nat, block: nat, found: Deadline)
    requires Valid(d, infos, size) && found == Checked(d, infos, block)
    ensures found == d.(partitions := found.partitions, posted := {})
    ensures AllMissed(d.partitions, found.partitions, d.posted, infos, d.partitions.Keys, block)
  {
    MissAllEffect(d, infos, size, d.partitions.Keys, block, MissAll(d, infos, d.partitions.Keys, block));
  }

  /** Closing the current deadline: `found` is the deadline as expiry finds it, d' what is left of it and `popped`
      what expires. */
  lemma {:induction false} CloseCurrentIs(w: World, i: nat, last: nat, maxAge: nat, w': World)
      returns (found: Deadline, d': Deadline, popped: ExpirationSet)
    requires i < |w.sp.deadlines| && CloseCurrent(w, i, last, maxAge) == Ok(w')
    ensures found == Checked(w.sp.deadlines[i], w.infos, last + maxAge)
    ensures Deadlines.PopExpiredSectors(found, last) == Ok((d', popped))
    ensures w' == w.(sp := Provider(w.sp.deadlines[i := d'],
                                    w.sp.earlyTerminations + if popped.early != {} then {i} else {}))
  {
    found := Checked(w.sp.deadlines[i], w.infos, last + maxAge);
    var sp := w.sp.(deadlines := w.sp.deadlines[i := found]);
    assert CloseDeadline(sp, i, last).Ok?;
    d' := Deadlines.PopExpiredSectors(found, last).value.0;
    popped := Deadlines.PopExpiredSectors(found, last).value.1;
    var sp' := CloseIs(sp, i, last, d', popped);
    assert w.sp.earlyTerminations + {} == w.sp.earlyTerminations;
    assert w.sp.deadlines[i := found][i := d'] == w.sp.deadlines[i := d'];
  }

  /** Missed proofs, then expiry: how the closing of deadline i changes the provider. */
  ghost predicate ClosingChanges(w: World, w': World, i: nat, last: nat, maxAge: nat, found: Deadline, d': Deadline,
                                 popped: ExpirationSet)
    requires i < |w.sp.deadlines|
  {
    var d := w.sp.deadlines[i];
    && found == d.(partitions := found.partitions, posted := {})
    && AllMissed(d.partitions, found.partitions, d.posted, w.infos, d.partitions.Keys, last + maxAge)
    && LapsedFrame(found, d', last, popped) && LapsedPartitions(found, d'.partitions, last)
    && LapsedSectors(found, last, popped)
    && w' == w.(sp := Provider(w.sp.deadlines[i := d'],
                               w.sp.earlyTerminations + if popped.early != {} then {i} else {}))
  }

  /** What closing the current deadline does, partition by partition and sector by sector. */
  lemma {:induction false} CloseCurrentEffect(w: World, size: nat, i: nat, last: nat, maxAge: nat, w': World)
      returns (found: Deadline, d': Deadline, popped: ExpirationSet)
    requires Inv(w, size) && i < |w.sp.deadlines| && CloseCurrent(w, i, last, maxAge) == Ok(w')
    ensures ClosingChanges(w, w', i, last, maxAge, found, d', popped)
  {
    assert Valid(w.sp.deadlines[i], w.infos, size);
    found, d', popped := CloseCurrentIs(w, i, last, maxAge, w');
    CheckedEffect(w.sp.deadlines[i], w.infos, size, last + maxAge, found);
    ExpiryEffect(found, last, d', popped);
  }
}

/** The ends of blocks over whole runs: when a deadline is closed, which one, and what that does. */
module RunClosings {
  import opened Results
  import opened ExpirationQueue
  import opened Deadlines
  import opened ClosingEffects
  import opened ProvingClock
  import opened ProvingRun
  import opened EndOfBlock

  /** A window has just ended at this block. */
  ghost predicate WindowEnds(g: Setting, now: nat)
    requires g.Sound()
  {
    now > g.first && (now - g.first) % g.c.window == 0
  }

  lemma {:induction false} ClosesExactly(g: Setting, k: Clock, now: nat, last: nat)
    requires g.Sound() && (now > 0 ==> now == last + 1)
    requires g.registered <= now && k == Before(g.c, g.first, g.registered, now)
    ensures Closes(g.c, k, now) <==> WindowEnds(g, now)
    ensures WindowEnds(g, now) ==>
              && k.deadline == (last - g.first) / g.c.window % g.c.deadlines
              && NewDeadlineInfo(g.c, now, k.periodStart, k.deadline).Last() == last
  {
    ClosesOnTime(g.c, g.first, g.registered, now);
    if now > g.first {
      ClosesAtWindowEnd(g.c, g.first, g.registered, now);
    } else {
      ClockWindows(g.c, g.first, g.registered, now);
      WindowsZero(g.c, g.first);
    }
  }

  /** The end of a block: nothing happens unless it closes the current deadline. */
  lemma {:induction false} EndBlockIs(g: Setting, s: State, s': State, last: nat)
    requires g.Sound() && s.Running? && s.Timed(g.c) && s.clock.deadline < |s.w.sp.deadlines|
    requires s' == Step(g, s, EndBlock) && s'.Running?
    requires Closes(g.c, s.clock, s.now) ==>
               NewDeadlineInfo(g.c, s.now, s.clock.periodStart, s.clock.deadline).Last() == last
    ensures s'.now == s.now + 1
    ensures !Closes(g.c, s.clock, s.now) ==> s'.w == s.w && s'.clock == s.clock
    ensures Closes(g.c, s.clock, s.now) ==>
              && CloseCurrent(s.w, s.clock.deadline, last, g.maxAge) == Ok(s'.w)
              && s'.clock == Advance(g.c, s.clock)
  {
  }

  /** In every run the end of a block does nothing but at the end of a window, where it closes the deadline of
      that window: `found` is the deadline as expiry finds it, d' what is left of it and `popped` what expires. */
  lemma {:induction false} RunCloses(g: Setting, events: seq<Event>, s: State, s': State, i: nat, last: nat)
      returns (found: Deadline, d': Deadline, popped: ExpirationSet)
    requires g.Sound() && s == Run(g, events) && s.Running? && s' == Step(g, s, EndBlock) && s'.Running?
    requires i == s.clock.deadline && (s.now > 0 ==> s.now == last + 1)
    ensures s'.now == s.now + 1 && i < |s.w.sp.deadlines|
    ensures !WindowEnds(g, s.now) ==> s'.w == s.w && s'.clock == s.clock
    ensures WindowEnds(g, s.now) ==>
              && i == (last - g.first) / g.c.window % g.c.deadlines && s'.clock == Advance(g.c, s.clock)
              && ClosingChanges(s.w, s'.w, i, last, g.maxAge, found, d', popped)
  {
    RunGood(g, events);
    RunClock(g, events);
    ClosesExactly(g, s.clock, s.now, last);
    found, d', popped := FRESH_DEADLINE, FRESH_DEADLINE, EMPTY_SET;
    EndBlockIs(g, s, s', last);
    if WindowEnds(g, s.now) {
      found, d', popped := CloseCurrentEffect(s.w, g.size, i, last, g.maxAge, s'.w);
    }
  }
}
