/** Whole runs of a provider on the proving clock: calls are accepted only when the pallet accepts them at
    the current block, and every block ends with the check of the current deadline. */
module ProvingRun {
  import opened Arith
  import opened Results
  import opened ExpirationQueue
  import opened Partitions
  import opened Deadlines
  import opened DeadlineSpec
  import opened DeadlineExact
  import opened Providers
  import opened ProvingClock
  import PR = ProviderRun
  import opened EndOfBlock
  import DI = DeadlineInvariant

  /** The chain's constants, and when the provider registered and when its first period starts. */
  datatype Setting = Setting(c: Config, maxAge: nat, size: nat, first: nat, registered: nat) {
    ghost predicate Sound() {
      c.Tiled() && size > 0 && first >= c.period && registered <= first
    }
  }

  datatype State = Running(w: PR.World, clock: Clock, now: nat) | Panicked {
    ghost predicate Timed(c: Config) {
      Running? ==> clock.periodStart >= c.period
    }
  }

  datatype Event = Call(op: PR.Op) | EndBlock

  // ---------- which calls are accepted ----------

  /** The occurrence of deadline i that a declaration made now is about. */
  ghost function Target(c: Config, k: Clock, now: nat, i: nat): DeadlineInfo
    requires c.Tiled() && k.periodStart >= c.period
  {
    MulOrder(0, i, c.window);
    var info := NewDeadlineInfo(c, now, k.periodStart, i);
    assert info.closeAt >= k.periodStart;
    NextNotElapsed(c, info)
  }

  ghost function Current(c: Config, k: Clock, now: nat): DeadlineInfo
    requires c.Tiled() && k.periodStart >= c.period
  {
    MulOrder(0, k.deadline, c.window);
    NewDeadlineInfo(c, now, k.periodStart, k.deadline)
  }

  ghost predicate Named(request: Request) {
    forall n :: n in request ==> request[n] != {}
  }

  /** Whether the pallet lets a call through at this block.  Missed proofs and closing are not calls. */
  ghost predicate Accepts(g: Setting, s: State, op: PR.Op)
    requires g.Sound() && s.Running? && s.Timed(g.c)
  {
    match op
    case Register(_) => true
    case Assign(i, _) => s.now < s.clock.periodStart || DeadlineIsMutable(g.c, s.clock.periodStart, i, s.now)
    case Faults(i, request, block) =>
      var target := Target(g.c, s.clock, s.now, i);
      Named(request) && !target.FaultCutoffPassed() && block == target.Last() + g.maxAge
    case Recoveries(i, request) => Named(request) && !Target(g.c, s.clock, s.now, i).FaultCutoffPassed()
    case Proof(i, _) => s.now >= s.clock.periodStart && Current(g.c, s.clock, s.now).IsOpen() && i == s.clock.deadline
    case Terminate(i, _, block) => DeadlineIsMutable(g.c, s.clock.periodStart, i, s.now) && block == s.now
    case PopEarly(_, _) => true
    case Missed(_, _, _) => false
    case Close(_, _) => false
  }

  ghost function Step(g: Setting, s: State, e: Event): (s': State)
    requires g.Sound() && s.Timed(g.c)
    ensures s'.Timed(g.c)
  {
    if s.Panicked? then s else
    match e
    case Call(op) => if Accepts(g, s, op) then s.(w := PR.Step(s.w, g.size, op)) else s
    case EndBlock =>
      var r := CheckDeadline(g.c, g.maxAge, s.w, s.clock, s.now);
      if r.Err? then Panicked else Running(r.value.0, r.value.1, s.now + 1)
  }

  ghost function Start(g: Setting): State {
    Running(PR.World(map[], Provider(seq(g.c.deadlines, _ => FRESH_DEADLINE), {})), Clock(g.first, 0), g.registered)
  }

  /** The state after the events, from a given one. */
  ghost function From(g: Setting, s: State, events: seq<Event>): (s': State)
    requires g.Sound() && s.Timed(g.c)
    ensures s'.Timed(g.c)
  {
    if events == [] then s else Step(g, From(g, s, events[..|events| - 1]), events[|events| - 1])
  }

  ghost function Run(g: Setting, events: seq<Event>): (s': State)
    requires g.Sound()
    ensures s'.Timed(g.c)
  {
    From(g, Start(g), events)
  }

  // ---------- what waits for a proof ----------

  /** Every partition proven in this window has nothing waiting for a proof. */
  ghost predicate PostedReady(d: Deadline) {
    forall n :: n in d.posted ==> n in d.partitions && Ready(d.partitions[n])
  }

  /** The same partitions proven, and no more waiting for a proof than before. */
  ghost predicate Calm(d: Deadline, d': Deadline) {
    && d'.posted == d.posted && d.partitions.Keys <= d'.partitions.Keys
    && forall n :: n in d.partitions ==>
         d'.partitions[n].unproven <= d.partitions[n].unproven
             && d'.partitions[n].recoveries <= d.partitions[n].recoveries
  }

  ghost predicate AllCalm(sp: Provider, sp': Provider) {
    |sp'.deadlines| == |sp.deadlines| && forall i :: 0 <= i < |sp.deadlines| ==> Calm(sp.deadlines[i], sp'.deadlines[i])
  }

  lemma {:induction false} CalmTrans(a: Deadline, b: Deadline, c: Deadline)
    requires Calm(a, b) && Calm(b, c)
    ensures Calm(a, c)
  {
  }

  lemma {:induction false} CalmReady(d: Deadline, d': Deadline)
    requires Calm(d, d') && PostedReady(d)
    ensures PostedReady(d')
  {
  }

  lemma {:induction false} FaultedCalm(d: Deadline, infos: Infos, n: nat, numbers: set<nat>, block: nat)
    requires RecordFaultsOne(d, infos, n, numbers, block).Ok?
    ensures Calm(d, RecordFaultsOne(d, infos, n, numbers, block).value)
  {
  }

  lemma {:induction false} FaultsCalm(d: Deadline, infos: Infos, request: Request, todo: set<nat>, block: nat)
    requires todo <= request.Keys && Deadlines.RecordFaults(d, infos, request, todo, block).Ok?
    ensures Calm(d, Deadlines.RecordFaults(d, infos, request, todo, block).value)
    decreases todo
  {
    if todo != {} {
      var n := Least(todo);
      var d' := RecordFaultsOne(d, infos, n, request[n], block).value;
      FaultedCalm(d, infos, n, request[n], block);
      FaultsCalm(d', infos, request, todo - {n}, block);
      CalmTrans(d, d', Deadlines.RecordFaults(d, infos, request, todo, block).value);
    }
  }

  lemma {:induction false} TerminatedCalm(d: Deadline, block: nat, infos: Infos, n: nat, numbers: set<nat>)
    requires TerminateOne(d, block, infos, n, numbers).Ok?
    ensures Calm(d, TerminateOne(d, block, infos, n, numbers).value)
  {
  }

  lemma {:induction false} TerminateCalm(d: Deadline, block: nat, infos: Infos, request: Request, todo: set<nat>)
    requires todo <= request.Keys && Deadlines.TerminateSectors(d, block, infos, request, todo).Ok?
    ensures Calm(d, Deadlines.TerminateSectors(d, block, infos, request, todo).value)
    decreases todo
  {
    if todo != {} {
      var n := Least(todo);
      var d' := TerminateOne(d, block, infos, n, request[n]).value;
      TerminatedCalm(d, block, infos, n, request[n]);
      TerminateCalm(d', block, infos, request, todo - {n});
      CalmTrans(d, d', Deadlines.TerminateSectors(d, block, infos, request, todo).value);
    }
  }

  /** Only records of early terminations and marks differ. */
  ghost predicate PopsOnly(d: Deadline, d': Deadline) {
    && d'.posted == d.posted && d'.partitions.Keys == d.partitions.Keys
    && forall n :: n in d.partitions ==>
         d'.partitions[n] == d.partitions[n].(earlyTerminations := d'.partitions[n].earlyTerminations)
  }

  ghost predicate AllPopsOnly(sp: Provider, sp': Provider) {
    |sp'.deadlines| == |sp.deadlines|
        && forall i :: 0 <= i < |sp.deadlines| ==> PopsOnly(sp.deadlines[i], sp'.deadlines[i])
  }

  lemma {:induction false} PopsOnlyTrans(a: Deadline, b: Deadline, c: Deadline)
    requires PopsOnly(a, b) && PopsOnly(b, c)
    ensures PopsOnly(a, c)
  {
  }

  lemma {:induction false} PopMarkedOnly(d: Deadline, todo: set<nat>, maxPartitions: nat, maxSectors: nat,
                                         so: TerminationResult,
                                         r: (Deadline, TerminationResult))
    requires so.sectorsProcessed <= maxSectors && r == PopMarked(d, todo, maxPartitions, maxSectors, so)
    ensures PopsOnly(d, r.0)
    decreases todo
  {
    if todo != {} {
      var n := Least(todo);
      if n !in d.partitions {
        PopMarkedOnly(d.(earlyTerminations := d.earlyTerminations - {n}), todo - {n}, maxPartitions, maxSectors, so, r);
      } else {
        var result, d', so' := PopMarkedUnfold(d, n, todo, maxPartitions, maxSectors, so, r,
                                               maxSectors - so.sectorsProcessed);
        assert PopsOnly(d, d');
        if so'.BelowLimit(maxPartitions, maxSectors) {
          PopMarkedOnly(d', todo - {n}, maxPartitions, maxSectors, so', r);
          PopsOnlyTrans(d, d', r.0);
        }
      }
    }
  }

  lemma {:induction false} PopDeadlinesOnly(sp: Provider, todo: set<nat>, maxPartitions: nat, maxSectors: nat,
                                            so: TerminationResult,
                                            r: Result<(Provider, TerminationResult), Error>)
    requires so.partitionsProcessed <= maxPartitions && so.sectorsProcessed <= maxSectors
    requires r == PopDeadlines(sp, todo, maxPartitions, maxSectors, so) && r.Ok?
    ensures AllPopsOnly(sp, r.value.0)
    decreases todo
  {
    if todo != {} {
      var i := Least(todo);
      var leftPartitions, leftSectors := maxPartitions - so.partitionsProcessed, maxSectors - so.sectorsProcessed;
      var result, sp', so' := PopDeadlinesUnfold(sp, i, todo, maxPartitions, maxSectors, so, r, leftPartitions,
                                                 leftSectors);
      DeadlinePopOnly(sp, i, leftPartitions, leftSectors, sp');
      if so'.BelowLimit(maxPartitions, maxSectors) {
        PopDeadlinesOnly(sp', todo - {i}, maxPartitions, maxSectors, so', r);
        AllPopsOnlyTrans(sp, sp', r.value.0);
      }
    }
  }

  lemma {:induction false} AllPopsOnlyTrans(a: Provider, b: Provider, c: Provider)
    requires AllPopsOnly(a, b) && AllPopsOnly(b, c)
    ensures AllPopsOnly(a, c)
  {
    forall i | 0 <= i < |a.deadlines| ensures PopsOnly(a.deadlines[i], c.deadlines[i]) {
      PopsOnlyTrans(a.deadlines[i], b.deadlines[i], c.deadlines[i]);
    }
  }

  lemma {:induction false} DeadlinePopOnly(sp: Provider, i: nat, maxPartitions: nat, maxSectors: nat, sp': Provider)
    requires i < |sp.deadlines| && sp' == AfterDeadlinePop(sp, i, maxPartitions, maxSectors)
    ensures AllPopsOnly(sp, sp')
  {
    var d := sp.deadlines[i];
    var r := Deadlines.PopEarlyTerminations(d, maxPartitions, maxSectors);
    PopMarkedOnly(d, d.earlyTerminations, maxPartitions, maxSectors, NO_TERMINATIONS, (r.0, r.1));
  }

  // ---------- proofs ----------

  lemma {:induction false} ProvenOneReady(d: Deadline, infos: Infos, n: nat)
    requires RecoveriesKnown(d, infos) && RecordProvenOne(d, infos, n).Ok? && PostedReady(d)
    ensures PostedReady(RecordProvenOne(d, infos, n).value)
  {
  }

  /** A proof leaves nothing waiting in the partitions it covers. */
  lemma {:induction false} ProvenReady(d: Deadline, infos: Infos, numbers: seq<nat>)
    requires RecoveriesKnown(d, infos) && RecordProven(d, infos, numbers).Ok? && PostedReady(d)
    ensures PostedReady(RecordProven(d, infos, numbers).value)
    decreases |numbers|
  {
    if numbers != [] {
      ProvenOneReady(d, infos, numbers[0]);
      ProvenReady(RecordProvenOne(d, infos, numbers[0]).value, infos, numbers[1..]);
    }
  }

  /** Declared recoveries wait for a proof; what was waiting still does. */
  ghost predicate Recovering(d: Deadline, d': Deadline, request: Request, todo: set<nat>)
    requires todo <= request.Keys
  {
    && d'.posted == d.posted && d'.expirationsBlocks == d.expirationsBlocks && d'.partitions.Keys == d.partitions.Keys
    && (forall n :: n in d.partitions ==> d.partitions[n].recoveries <= d'.partitions[n].recoveries)
    && (forall n :: n in todo ==> n in d.partitions && request[n] <= d'.partitions[n].recoveries)
  }

  lemma {:induction false} RecoveriesWait(d: Deadline, infos: Infos, request: Request, todo: set<nat>)
    requires todo <= request.Keys && Deadlines.DeclareFaultsRecovered(d, infos, request, todo).Ok?
    ensures Recovering(d, Deadlines.DeclareFaultsRecovered(d, infos, request, todo).value, request, todo)
    decreases todo
  {
    if todo != {} {
      var n := Least(todo);
      var d1 := DeclareRecoveredOne(d, infos, n, request[n]).value;
      RecoveriesWait(d1, infos, request, todo - {n});
      RecoveringStep(d, d1, Deadlines.DeclareFaultsRecovered(d1, infos, request, todo - {n}).value, request, todo, n);
    }
  }

  lemma {:induction false} RecoveringStep(d: Deadline, d1: Deadline, d': Deadline, request: Request, todo: set<nat>,
                                          n: nat)
    requires todo <= request.Keys && n in todo && n in d.partitions && request[n] <= d.partitions[n].faults
    requires d1 == d.(partitions := d.partitions[n := Partitions.DeclareFaultsRecovered(d.partitions[n], request[n])])
    requires Recovering(d1, d', request, todo - {n})
    ensures Recovering(d, d', request, todo)
  {
    forall m | m in todo ensures m in d.partitions && request[m] <= d'.partitions[m].recoveries {
      if m == n { assert request[n] <= d1.partitions[n].recoveries; } else { assert m in todo - {n}; }
    }
  }

  // ---------- what calls do to the current deadline ----------

  /** Calls that can leave something waiting for a proof in the current deadline. */
  ghost predicate Disturbs(s: State, op: PR.Op)
    requires s.Running?
  {
    (op.Assign? || op.Recoveries?) && op.i == s.clock.deadline
  }

  /** Faults, terminations and pops leave nothing new waiting anywhere. */
  lemma {:induction false} CalmCall(w: PR.World, size: nat, op: PR.Op)
    requires size > 0 && (op.Register? || op.Faults? || op.Terminate? || op.PopEarly?)
    ensures AllCalm(w.sp, PR.Step(w, size, op).sp)
  {
    match op
    case Register(_) =>
    case Faults(i, request, block) =>
      if i < |w.sp.deadlines| && Deadlines.RecordFaults(w.sp.deadlines[i], w.infos, request, request.Keys, block).Ok? {
        FaultsCalm(w.sp.deadlines[i], w.infos, request, request.Keys, block);
      }
    case Terminate(i, request, block) =>
      if i < |w.sp.deadlines| && Deadlines.TerminateSectors(w.sp.deadlines[i], block, w.infos, request,
                                                            request.Keys).Ok? {
        TerminateCalm(w.sp.deadlines[i], block, w.infos, request, request.Keys);
      }
    case PopEarly(maxPartitions, maxSectors) =>
      var r := Providers.PopEarlyTerminations(w.sp, maxPartitions, maxSectors);
      if w.sp.earlyTerminations != {} && r.Ok? {
        PopDeadlinesOnly(w.sp, w.sp.earlyTerminations, maxPartitions, maxSectors, NO_TERMINATIONS, r);
      }
  }

  /** The other deadlines stay as they are, and deadline i keeps its posted partitions. */
  ghost predicate OnlyDeadline(sp: Provider, sp': Provider, i: nat) {
    && |sp'.deadlines| == |sp.deadlines|
    && forall j :: 0 <= j < |sp.deadlines| && j != i ==> sp'.deadlines[j] == sp.deadlines[j]
  }

  lemma {:induction false} PlacingCall(w: PR.World, size: nat, op: PR.Op)
    requires size > 0 && (op.Assign? || op.Recoveries?)
    ensures var sp' := PR.Step(w, size, op).sp;
            OnlyDeadline(w.sp, sp', op.i)
                && (op.i < |w.sp.deadlines| ==> sp'.deadlines[op.i].posted == w.sp.deadlines[op.i].posted)
  {
    if op.Recoveries? && op.i < |w.sp.deadlines| {
      var d := w.sp.deadlines[op.i];
      if Deadlines.DeclareFaultsRecovered(d, w.infos, op.request, op.request.Keys).Ok? {
        RecoveriesWait(d, w.infos, op.request, op.request.Keys);
      }
    }
  }

  lemma {:induction false} ProofCall(w: PR.World, size: nat, i: nat, numbers: seq<nat>)
    requires size > 0
    ensures var sp' := PR.Step(w, size, PR.Proof(i, numbers)).sp;
            && OnlyDeadline(w.sp, sp', i)
            && (i < |w.sp.deadlines| && PostedReady(w.sp.deadlines[i]) ==> PostedReady(sp'.deadlines[i]))
  {
    if i < |w.sp.deadlines| && RecoveriesKnown(w.sp.deadlines[i], w.infos) && PostedReady(w.sp.deadlines[i]) {
      if RecordProven(w.sp.deadlines[i], w.infos, numbers).Ok? { ProvenReady(w.sp.deadlines[i], w.infos, numbers); }
    }
  }

  // ---------- the invariant of runs ----------

  /** Only the current deadline has proofs on record, only once it has opened, and while it is open the
      proven partitions have nothing waiting. */
  ghost predicate Posting(ds: seq<Deadline>, cur: nat, now: nat, openAt: nat, closeAt: nat) {
    && cur < |ds|
    && (forall i :: 0 <= i < |ds| && i != cur ==> ds[i].posted == {})
    && (ds[cur].posted != {} ==> openAt <= now)
    && (now < closeAt ==> PostedReady(ds[cur]))
  }

  ghost predicate Good(g: Setting, s: State)
    requires g.Sound() && s.Timed(g.c)
  {
    s.Running? ==>
      var info := Current(g.c, s.clock, s.now);
      && PR.Inv(s.w, g.size) && |s.w.sp.deadlines| == g.c.deadlines
      && Posting(s.w.sp.deadlines, s.clock.deadline, s.now, info.openAt, info.closeAt)
  }

  /** While a deadline is open, nothing is assigned to it and no recovery is declared in it. */
  lemma {:induction false} OpenShut(g: Setting, s: State, op: PR.Op)
    requires g.Sound() && s.Running? && s.Timed(g.c) && s.clock.deadline < g.c.deadlines && Disturbs(s, op)
    requires Current(g.c, s.clock, s.now).IsOpen()
    ensures !Accepts(g, s, op)
  {
    MulOrder(0, s.clock.deadline, g.c.window);
  }

  lemma {:induction false} CalmPosting(sp: Provider, sp': Provider, cur: nat, now: nat, openAt: nat, closeAt: nat)
    requires AllCalm(sp, sp') && Posting(sp.deadlines, cur, now, openAt, closeAt)
    ensures Posting(sp'.deadlines, cur, now, openAt, closeAt)
            && (PostedReady(sp.deadlines[cur]) ==> PostedReady(sp'.deadlines[cur]))
  {
    if PostedReady(sp.deadlines[cur]) { CalmReady(sp.deadlines[cur], sp'.deadlines[cur]); }
  }

  /** An accepted call keeps the invariant; one that does not disturb the current deadline also keeps its
      proven partitions ready. */
  lemma {:induction false} CallPosting(g: Setting, s: State, op: PR.Op, sp': Provider)
    requires g.Sound() && s.Running? && s.Timed(g.c) && Good(g, s) && Accepts(g, s, op)
             && sp' == PR.Step(s.w, g.size, op).sp
    ensures var info := Current(g.c, s.clock, s.now);
            && |sp'.deadlines| == |s.w.sp.deadlines|
            && Posting(sp'.deadlines, s.clock.deadline, s.now, info.openAt, info.closeAt)
            && (PostedReady(s.w.sp.deadlines[s.clock.deadline]) && !Disturbs(s, op)
                ==> PostedReady(sp'.deadlines[s.clock.deadline]))
  {
    var info := Current(g.c, s.clock, s.now);
    if op.Assign? || op.Recoveries? {
      PlacingCall(s.w, g.size, op);
      if Disturbs(s, op) && info.openAt <= s.now < info.closeAt { OpenShut(g, s, op); }
    } else if op.Proof? {
      ProofCall(s.w, g.size, op.i, op.numbers);
    } else {
      CalmCall(s.w, g.size, op);
      CalmPosting(s.w.sp, sp', s.clock.deadline, s.now, info.openAt, info.closeAt);
    }
  }

  lemma {:induction false} CallKeeps(g: Setting, s: State, op: PR.Op)
    requires g.Sound() && s.Timed(g.c) && Good(g, s)
    ensures Good(g, Step(g, s, Call(op)))
    ensures s.Running? ==>
              var s' := Step(g, s, Call(op)); s'.Running? && s'.clock == s.clock && s'.now == s.now
    ensures s.Running? && !(Accepts(g, s, op) && Disturbs(s, op)) && PostedReady(s.w.sp.deadlines[s.clock.deadline]) ==>
              PostedReady(Step(g, s, Call(op)).w.sp.deadlines[s.clock.deadline])
  {
    if s.Running? && Accepts(g, s, op) {
      PR.StepKeeps(s.w, g.size, op);
      CallPosting(g, s, op, PR.Step(s.w, g.size, op).sp);
    }
  }

  // ---------- the end of a block ----------

  lemma {:induction false} ReadyClosable(d: Deadline, last: nat)
    requires PostedReady(d)
    ensures Closable(d, last)
  {
  }

  /** After a closing no deadline has proofs on record. */
  lemma {:induction false} ClosedPosting(ds: seq<Deadline>, ds': seq<Deadline>, cur: nat, next: nat, now: nat,
                                         openAt: nat, closeAt: nat)
    requires cur < |ds| == |ds'| && next < |ds'| && ds'[cur].posted == {}
    requires forall i :: 0 <= i < |ds| && i != cur ==> ds[i].posted == {} && ds'[i] == ds[i]
    ensures Posting(ds', next, now, openAt, closeAt) && PostedReady(ds'[next])
  {
  }

  /** A block that closes nothing only passes. */
  lemma {:induction false} EndPasses(g: Setting, s: State)
    requires g.Sound() && s.Running? && s.Timed(g.c) && Good(g, s) && !Closes(g.c, s.clock, s.now)
    ensures Step(g, s, EndBlock) == s.(now := s.now + 1)
    ensures Good(g, s.(now := s.now + 1)) && PostedReady(s.w.sp.deadlines[s.clock.deadline])
  {
    MulOrder(0, s.clock.deadline, g.c.window);
  }

  lemma {:induction false} ClosingIs(g: Setting, s: State, last: nat, r: Result<PR.World, Error>)
    requires g.Sound() && s.Running? && s.Timed(g.c) && Closes(g.c, s.clock, s.now)
             && s.clock.deadline < |s.w.sp.deadlines|
    requires last == Current(g.c, s.clock, s.now).Last() && r == CloseCurrent(s.w, s.clock.deadline, last, g.maxAge)
    ensures Step(g, s, EndBlock) == if r.Err? then Panicked else Running(r.value, Advance(g.c, s.clock), s.now + 1)
  {
  }

  /** A block that closes a deadline forgets its proofs, or panics. */
  lemma {:induction false} EndCloses(g: Setting, s: State, last: nat) returns (s': State)
    requires g.Sound() && s.Running? && s.Timed(g.c) && Good(g, s) && Closes(g.c, s.clock, s.now)
    requires last == Current(g.c, s.clock, s.now).Last()
    ensures s' == Step(g, s, EndBlock) && (s'.Panicked? <==> !Closable(s.w.sp.deadlines[s.clock.deadline], last))
    ensures s'.Running? ==>
              && s'.clock == Advance(g.c, s.clock) && s'.now == s.now + 1
              && Good(g, s') && PostedReady(s'.w.sp.deadlines[s'.clock.deadline])
  {
    var r := CloseCurrent(s.w, s.clock.deadline, last, g.maxAge);
    CloseCurrentExact(s.w, g.size, s.clock.deadline, last, g.maxAge);
    ClosingIs(g, s, last, r);
    s' := Step(g, s, EndBlock);
    if r.Ok? {
      var info := Current(g.c, s'.clock, s'.now);
      ClosedPosting(s.w.sp.deadlines, r.value.sp.deadlines, s.clock.deadline, s'.clock.deadline, s'.now, info.openAt,
                    info.closeAt);
    }
  }

  /** Exactly when the end of a block panics; otherwise the next block starts with the current deadline's
      proven partitions ready. */
  lemma {:induction false} EndKeeps(g: Setting, s: State)
    requires g.Sound() && s.Running? && s.Timed(g.c) && Good(g, s)
    ensures Step(g, s, EndBlock).Panicked? <==>
            Closes(g.c, s.clock, s.now)
                && !Closable(s.w.sp.deadlines[s.clock.deadline], Current(g.c, s.clock, s.now).Last())
    ensures var s' := Step(g, s, EndBlock);
            s'.Running? ==>
              && Good(g, s') && PostedReady(s'.w.sp.deadlines[s'.clock.deadline])
              && s'.now == s.now + 1 && s'.clock == Tick(g.c, s.clock, s.now)
  {
    if Closes(g.c, s.clock, s.now) {
      var s' := EndCloses(g, s, Current(g.c, s.clock, s.now).Last());
    } else {
      EndPasses(g, s);
    }
  }

  lemma {:induction false} StepKeeps(g: Setting, s: State, e: Event)
    requires g.Sound() && s.Timed(g.c) && Good(g, s)
    ensures Good(g, Step(g, s, e))
  {
    if s.Running? {
      match e
      case Call(op) => CallKeeps(g, s, op);
      case EndBlock => EndKeeps(g, s);
    }
  }

  lemma {:induction false} StartGood(g: Setting)
    requires g.Sound()
    ensures Good(g, Start(g))
  {
    PR.RunKeeps(g.c.deadlines, g.size, []);
  }

  lemma {:induction false} FromKeeps(g: Setting, s: State, events: seq<Event>)
    requires g.Sound() && s.Timed(g.c) && Good(g, s)
    ensures Good(g, From(g, s, events))
  {
    if events != [] {
      FromKeeps(g, s, events[..|events| - 1]);
      StepKeeps(g, From(g, s, events[..|events| - 1]), events[|events| - 1]);
    }
  }

  lemma {:induction false} RunGood(g: Setting, events: seq<Event>)
    requires g.Sound()
    ensures Good(g, Run(g, events))
  {
    StartGood(g);
    FromKeeps(g, Start(g), events);
  }

  // ---------- what runs guarantee ----------

  ghost predicate OnTime(g: Setting, s: State)
    requires g.Sound()
  {
    s.Running? ==> s.now >= g.registered && s.clock == Before(g.c, g.first, g.registered, s.now)
  }

  lemma {:induction false} BeforeNext(c: Config, first: nat, registered: nat, block: nat)
    requires c.Tiled() && first >= c.period && block >= registered
    ensures Before(c, first, registered, block + 1) == Tick(c, Before(c, first, registered, block), block)
  {
  }

  lemma {:induction false} StepOnTime(g: Setting, s: State, e: Event)
    requires g.Sound() && s.Timed(g.c) && Good(g, s) && OnTime(g, s)
    ensures OnTime(g, Step(g, s, e))
  {
    if s.Running? {
      match e
      case Call(op) => CallKeeps(g, s, op);
      case EndBlock =>
        EndKeeps(g, s);
        BeforeNext(g.c, g.first, g.registered, s.now);
    }
  }

  /** As long as no check panics, the provider's clock is the clock's closed form at the current block. */
  lemma {:induction false} RunClock(g: Setting, events: seq<Event>)
    requires g.Sound()
    ensures OnTime(g, Run(g, events))
  {
    if events != [] {
      RunClock(g, events[..|events| - 1]);
      RunGood(g, events[..|events| - 1]);
      StepOnTime(g, Run(g, events[..|events| - 1]), events[|events| - 1]);
    }
  }

  /** In every run, finalising a block panics exactly when it closes a deadline in which a proven partition,
      listed for a block that is due, has a sector waiting for a proof. */
  lemma {:induction false} RunPanicsExactly(g: Setting, events: seq<Event>)
    requires g.Sound()
    ensures var s := Run(g, events);
            s.Running? ==>
              && s.clock.deadline < |s.w.sp.deadlines|
              && (Step(g, s, EndBlock).Panicked? <==>
                    Closes(g.c, s.clock, s.now)
                        && !Closable(s.w.sp.deadlines[s.clock.deadline], Current(g.c, s.clock, s.now).Last()))
  {
    RunGood(g, events);
    if Run(g, events).Running? { EndKeeps(g, Run(g, events)); }
  }

  ghost predicate Calls(events: seq<Event>) {
    forall j :: 0 <= j < |events| ==> events[j].Call?
  }

  /** The j-th call of a block was accepted and put something into the current deadline that waits for a proof. */
  ghost predicate DisturbedAt(g: Setting, s: State, calls: seq<Event>, j: nat)
    requires g.Sound() && s.Timed(g.c) && j < |calls| && Calls(calls)
  {
    var s' := From(g, s, calls[..j]);
    s'.Running? && Accepts(g, s', calls[j].op) && Disturbs(s', calls[j].op)
  }

  lemma {:induction false} CallsKeep(g: Setting, s: State, calls: seq<Event>)
    requires g.Sound() && s.Running? && s.Timed(g.c) && Good(g, s) && Calls(calls)
    requires PostedReady(s.w.sp.deadlines[s.clock.deadline])
    ensures var s' := From(g, s, calls);
            && Good(g, s') && s'.Running? && s'.clock == s.clock && s'.now == s.now
            && ((forall j :: 0 <= j < |calls| ==> !DisturbedAt(g, s, calls, j))
                ==> PostedReady(s'.w.sp.deadlines[s.clock.deadline]))
  {
    if calls != [] {
      var n := |calls| - 1;
      var init := calls[..n];
      CallsKeep(g, s, init);
      CallKeeps(g, From(g, s, init), calls[n].op);
      if forall j :: 0 <= j < |calls| ==> !DisturbedAt(g, s, calls, j) {
        forall j | 0 <= j < n ensures !DisturbedAt(g, s, init, j) {
          assert init[..j] == calls[..j] && init[j] == calls[j] && !DisturbedAt(g, s, calls, j);
        }
        assert !DisturbedAt(g, s, calls, n);
      }
    }
  }

  /** A block starts where another one ended, or where the run does. */
  lemma {:induction false} BlockStart(g: Setting, events: seq<Event>)
    requires g.Sound() && (events != [] ==> events[|events| - 1].EndBlock?)
    ensures var s := Run(g, events);
            Good(g, s) && (s.Running? ==> PostedReady(s.w.sp.deadlines[s.clock.deadline]))
  {
    RunGood(g, events);
    if events != [] {
      RunGood(g, events[..|events| - 1]);
      if Run(g, events[..|events| - 1]).Running? { EndKeeps(g, Run(g, events[..|events| - 1])); }
    }
  }

  lemma {:induction false} EndOfCalls(g: Setting, s: State, calls: seq<Event>)
    requires g.Sound() && s.Timed(g.c)
    ensures From(g, s, calls + [EndBlock]) == Step(g, From(g, s, calls), EndBlock)
  {
    assert (calls + [EndBlock])[..|calls|] == calls;
  }

  /** A check panics only at the closing block of a deadline and only if during that very block a sector was
      assigned to it or a recovery declared in it: the clock still has it open, while the guards of those
      calls already look at its next occurrence. */
  lemma {:induction false} PanicHasCause(g: Setting, events: seq<Event>, calls: seq<Event>)
    requires g.Sound() && (events != [] ==> events[|events| - 1].EndBlock?) && Calls(calls)
    requires Run(g, events).Running? && From(g, Run(g, events), calls + [EndBlock]).Panicked?
    ensures exists j :: 0 <= j < |calls| && DisturbedAt(g, Run(g, events), calls, j)
    ensures Run(g, events).now == Current(g.c, Run(g, events).clock, Run(g, events).now).closeAt
  {
    var s := Run(g, events);
    BlockStart(g, events);
    CallsKeep(g, s, calls);
    EndOfCalls(g, s, calls);
    var s' := From(g, s, calls);
    EndKeeps(g, s');
    if PostedReady(s'.w.sp.deadlines[s.clock.deadline]) {
      ReadyClosable(s'.w.sp.deadlines[s.clock.deadline], Current(g.c, s.clock, s.now).Last());
      assert false;
    }
    RunClock(g, events);
    ClosesOnTime(g.c, g.first, g.registered, s.now);
  }

  // ---------- the closing block ----------

  /** At its closing block the current deadline already takes sectors for its next occurrence. */
  lemma {:induction false} ClosingTakesSectors(g: Setting, s: State, items: seq<SectorInfo>)
    requires g.Sound() && g.c.deadlines >= 3 && s.Running? && s.Timed(g.c) && OnTime(g, s)
    requires Closes(g.c, s.clock, s.now)
    ensures Accepts(g, s, PR.Assign(s.clock.deadline, items))
  {
    ClosesOnTime(g.c, g.first, g.registered, s.now);
    MutableWhenClosing(g.c, s.clock.periodStart, s.clock.deadline);
  }

  /** New sectors that fit into the last partition all go there and wait for a proof. */
  lemma {:induction false} RoomTakes(d: Deadline, infos: Infos, size: nat, items: seq<SectorInfo>, idx: nat)
      returns (p: Partition, d': Deadline)
    requires Valid(d, infos, size) && FreshItems(d.partitions, infos, items) && items != []
    requires idx == LastIndex(d.partitions) && |PartitionAt(d.partitions, idx).sectors| + |items| <= size
    ensures Deadlines.AddSectors(d, size, items) == Ok(d') && Numbers(items) <= p.unproven
    ensures d'.posted == d.posted && d'.partitions == d.partitions[idx := p]
    ensures d'.expirationsBlocks == Insert(d.expirationsBlocks, Updates(items, idx))
  {
    DI.FillStart(d.partitions, infos, size);
    DI.FillOne(d.partitions, infos, size, idx, items);
    p := Partitions.AddSectors(PartitionAt(d.partitions, idx), items).value;
    FillAll(d.partitions, idx, size, items, PartitionAt(d.partitions, idx), p);
    d' := AddedAs(d, size, items, idx, p, Fill(d.partitions, idx, size, items));
  }

  lemma {:induction false} AddedAs(d: Deadline, size: nat, items: seq<SectorInfo>, idx: nat, p: Partition,
                                   r: Result<Filled, Error>)
      returns (d': Deadline)
    requires size > 0 && items != [] && idx == LastIndex(d.partitions) && r == Fill(d.partitions, idx, size, items)
    requires r == Ok(Filled(d.partitions[idx := p], Updates(items, idx)))
    ensures Deadlines.AddSectors(d, size, items) == Ok(d')
    ensures d'.posted == d.posted && d'.partitions == d.partitions[idx := p]
    ensures d'.expirationsBlocks == Insert(d.expirationsBlocks, Updates(items, idx))
  {
    AddIs(d, size, items, idx, r);
    d' := AddFilled(d, r, |items|).value;
  }

  lemma {:induction false} InsertLists(blocks: map<nat, nat>, updates: seq<(nat, nat)>, n: nat, b: nat)
    requires b in blocks && blocks[b] == n && forall i :: 0 <= i < |updates| ==> updates[i].1 == n
    ensures b in Insert(blocks, updates) && Insert(blocks, updates)[b] == n
  {
    if updates != [] { InsertLists(blocks, updates[..|updates| - 1], n, b); }
  }

  lemma {:induction false} AssignUnready(d: Deadline, infos: Infos, size: nat, items: seq<SectorInfo>, last: nat)
      returns (d': Deadline)
    requires Valid(d, infos, size) && FreshItems(d.partitions, infos, items) && items != []
    requires OpenWhenDue(d, size, last, |items|)
    ensures Deadlines.AddSectors(d, size, items) == Ok(d') && !Closable(d', last)
  {
    var idx := LastIndex(d.partitions);
    var p;
    p, d' := RoomTakes(d, infos, size, items, idx);
    var b :| b in d.expirationsBlocks && b <= last && d.expirationsBlocks[b] == idx;
    InsertLists(d.expirationsBlocks, Updates(items, idx), idx, b);
    assert items[0].number in Numbers(items);
    assert ListedBy(d', last, idx) && idx in d'.posted && !Ready(d'.partitions[idx]);
  }

  /** The last partition is proven, listed for a block that is due, and has room for n sectors. */
  ghost predicate OpenWhenDue(d: Deadline, size: nat, last: nat, n: nat) {
    var idx := LastIndex(d.partitions);
    idx in d.partitions && idx in d.posted && ListedBy(d, last, idx) && |d.partitions[idx].sectors| + n <= size
  }

  /** In every run with three or more deadlines: if a block closes a deadline whose last partition is proven,
      due and has room, then assigning new sectors to it in that block makes its end panic. */
  lemma {:induction false} AssignPanics(g: Setting, events: seq<Event>, items: seq<SectorInfo>)
    requires g.Sound() && g.c.deadlines >= 3 && Run(g, events).Running? && items != []
    requires var s := Run(g, events);
             && Closes(g.c, s.clock, s.now) && PR.Unassigned(s.w, items)
             && s.clock.deadline < |s.w.sp.deadlines|
             && OpenWhenDue(s.w.sp.deadlines[s.clock.deadline], g.size, Current(g.c, s.clock, s.now).Last(), |items|)
    ensures From(g, Run(g, events), [Call(PR.Assign(Run(g, events).clock.deadline, items)), EndBlock]).Panicked?
  {
    var s := Run(g, events);
    var i, last := s.clock.deadline, Current(g.c, s.clock, s.now).Last();
    RunGood(g, events);
    RunClock(g, events);
    ClosingTakesSectors(g, s, items);
    var d' := AssignUnready(s.w.sp.deadlines[i], s.w.infos, g.size, items, last);
    UnreadyPanics(g, s, PR.Assign(i, items));
  }

  /** Likewise for recoveries that the deadline accepts in a proven partition that is due. */
  lemma {:induction false} RecoveryPanics(g: Setting, events: seq<Event>, request: Request, n: nat)
    requires g.Sound() && Run(g, events).Running? && n in request
    requires var s := Run(g, events);
             && Closes(g.c, s.clock, s.now) && Accepts(g, s, PR.Recoveries(s.clock.deadline, request))
             && s.clock.deadline < |s.w.sp.deadlines|
             && var d := s.w.sp.deadlines[s.clock.deadline];
                && RecoveriesAllowed(d, s.w.infos, request, request.Keys)
                && n in d.posted && ListedBy(d, Current(g.c, s.clock, s.now).Last(), n)
    ensures From(g, Run(g, events), [Call(PR.Recoveries(Run(g, events).clock.deadline, request)), EndBlock]).Panicked?
  {
    var s := Run(g, events);
    var op, last := PR.Recoveries(s.clock.deadline, request), Current(g.c, s.clock, s.now).Last();
    var d := s.w.sp.deadlines[s.clock.deadline];
    RunGood(g, events);
    var d' := RecoveryUnready(d, s.w.infos, request, n, last);
    UnreadyPanics(g, s, op);
  }

  lemma {:induction false} RecoveryUnready(d: Deadline, infos: Infos, request: Request, n: nat, last: nat)
      returns (d': Deadline)
    requires n in request && request[n] != {} && RecoveriesAllowed(d, infos, request, request.Keys)
    requires n in d.posted && ListedBy(d, last, n)
    ensures Deadlines.DeclareFaultsRecovered(d, infos, request, request.Keys) == Ok(d') && !Closable(d', last)
  {
    RecoveriesExact(d, infos, request, request.Keys);
    RecoveriesWait(d, infos, request, request.Keys);
    d' := Deadlines.DeclareFaultsRecovered(d, infos, request, request.Keys).value;
    assert request[n] <= d'.partitions[n].recoveries;
    assert ListedBy(d', last, n);
  }

  /** A call that leaves the closing deadline unready makes the end of the block panic. */
  lemma {:induction false} UnreadyPanics(g: Setting, s: State, op: PR.Op)
    requires g.Sound() && s.Running? && s.Timed(g.c) && Good(g, s) && Closes(g.c, s.clock, s.now) && Accepts(g, s, op)
    requires var sp := PR.Step(s.w, g.size, op).sp;
             s.clock.deadline < |sp.deadlines|
                 && !Closable(sp.deadlines[s.clock.deadline], Current(g.c, s.clock, s.now).Last())
    ensures From(g, s, [Call(op), EndBlock]).Panicked?
  {
    CallThenEnd(g, s, op);
    CallKeeps(g, s, op);
    EndKeeps(g, Step(g, s, Call(op)));
  }

  lemma {:induction false} CallThenEnd(g: Setting, s: State, op: PR.Op)
    requires g.Sound() && s.Timed(g.c)
    ensures From(g, s, [Call(op), EndBlock]) == Step(g, Step(g, s, Call(op)), EndBlock)
  {
    var events := [Call(op), EndBlock];
    assert events[..1] == [Call(op)] && [Call(op)][..0] == [];
    assert From(g, s, []) == s;
  }
}
