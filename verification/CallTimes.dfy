/** When calls are accepted, in block numbers: which window of a deadline a declaration is about, and how long
    before it opens the declaration must come. */
module CallTimes {
  import opened Arith
  import opened ProvingClock
  import opened ProvingRun
  import PR = ProviderRun

  /** The opening of the window of deadline i that a call made now is about: the one of the running period until
      it closes, and then the one of the period after the current block. */
  ghost function OpeningFor(c: Config, periodStart: nat, now: nat, i: nat): nat
    requires c.period > 0
  {
    MulOrder(0, i, c.window);
    if now < periodStart + i * c.window + c.window then Opening(c, periodStart, i, 0)
    else Opening(c, periodStart, i, (now - periodStart) / c.period + 1)
  }

  /** The target of a declaration: its window, and the two blocks that lie a fixed time before the opening. */
  lemma {:induction false} TargetTimes(c: Config, k: Clock, now: nat, i: nat, opening: nat)
    requires c.Tiled() && k.periodStart >= c.period && i < c.deadlines
    requires opening == OpeningFor(c, k.periodStart, now, i)
    ensures var t := Target(c, k, now, i);
            && t.block == now && t.openAt == opening && t.closeAt == opening + c.window && t.Last() + 1 == t.closeAt
            && t.faultCutoff + c.cutoff == opening && t.challenge + c.lookback == opening
    ensures opening + c.window > now
  {
    MulOrder(0, i, c.window);
    if now < k.periodStart + i * c.window + c.window {
      InfoTimes(c, now, k.periodStart, i);
    } else {
      var q := (now - k.periodStart) / c.period;
      TargetOpening(c, k.periodStart, i, now, q);
      NextNotElapsedEarliest(c, k.periodStart, i, now);
      MulOrder(0, 1 + q, c.period);
      InfoTimes(c, now, k.periodStart + c.period * (1 + q), i);
    }
  }

  lemma {:induction false} InfoTimes(c: Config, now: nat, start: nat, i: nat)
    requires c.Tiled() && start >= c.period && i < c.deadlines
    ensures start + i * c.window >= c.period
    ensures var t := NewDeadlineInfo(c, now, start, i);
            && t.block == now && t.closeAt == t.openAt + c.window && t.Last() + 1 == t.closeAt
            && t.faultCutoff + c.cutoff == t.openAt && t.challenge + c.lookback == t.openAt
  {
    MulOrder(0, i, c.window);
  }

  lemma {:induction false} MutableTimes(c: Config, periodStart: nat, now: nat, i: nat, opening: nat)
    requires c.Tiled() && periodStart >= c.period && i < c.deadlines && opening == OpeningFor(c, periodStart, now, i)
    ensures DeadlineIsMutable(c, periodStart, i, now) <==> now + c.window < opening
  {
    TargetTimes(c, Clock(periodStart, 0), now, i, opening);
  }

  ghost predicate AboutDeadline(op: PR.Op) {
    op.Assign? || op.Faults? || op.Recoveries? || op.Proof? || op.Terminate?
  }

  /** Declarations come before the cutoff, changes more than a window before the opening (or before the first
      period), and proofs inside the window of the current deadline. */
  ghost predicate InTime(g: Setting, s: State, op: PR.Op, opening: nat)
    requires s.Running? && AboutDeadline(op)
  {
    var start, now := s.clock.periodStart, s.now;
    match op
    case Assign(_, _) => now < start || now + g.c.window < opening
    case Terminate(_, _, block) => now + g.c.window < opening && block == now
    case Faults(_, request, block) =>
      Named(request) && now + g.c.cutoff < opening && block + 1 == opening + g.c.window + g.maxAge
    case Recoveries(_, request) => Named(request) && now + g.c.cutoff < opening
    case Proof(i, _) =>
      i == s.clock.deadline && start + i * g.c.window <= now < start + i * g.c.window + g.c.window
  }

  /** Calls about an existing deadline are accepted exactly when they come in time. */
  lemma {:induction false} AcceptsExactly(g: Setting, s: State, op: PR.Op, opening: nat)
    requires g.Sound() && s.Running? && s.Timed(g.c) && AboutDeadline(op) && op.i < g.c.deadlines
    requires opening == OpeningFor(g.c, s.clock.periodStart, s.now, op.i)
    ensures Accepts(g, s, op) <==> InTime(g, s, op, opening)
  {
    MulOrder(0, op.i, g.c.window);
    TargetTimes(g.c, s.clock, s.now, op.i, opening);
    MutableTimes(g.c, s.clock.periodStart, s.now, op.i, opening);
  }

  // ---------- over runs ----------

  /** The period of the clock has not been over for more than a block. */
  lemma {:induction false} PeriodRuns(c: Config, first: nat, registered: nat, now: nat)
    requires c.Tiled() && first >= c.period && registered <= first && registered <= now
    ensures now <= Before(c, first, registered, now).periodStart + c.period
  {
    if now > first {
      ClockClosedForm(c, first, registered, now - 1);
      var q, r := Euclid(now - 1 - first, c.period);
    } else {
      ClockWindows(c, first, registered, now);
      WindowsZero(c, first);
    }
  }

  /** The call was accepted as a declaration for the k-th window of the deadline from the period's start. */
  ghost predicate Declared(g: Setting, s: State, op: PR.Op, k: nat)
    requires s.Running? && (op.Faults? || op.Recoveries?)
  {
    var opening := Opening(g.c, s.clock.periodStart, op.i, k);
    s.now + g.c.cutoff < opening && (op.Faults? ==> op.block + 1 == opening + g.c.window + g.maxAge)
  }

  /** In every run an accepted fault or recovery declaration comes before the opening of the window it is about,
      by more than the cutoff.  The window is that of this period until it has closed, then that of the next
      period, and in the last block before the clock steps to a new period the one after that. */
  lemma {:induction false} RunDeclares(g: Setting, events: seq<Event>, s: State, op: PR.Op) returns (k: nat)
    requires g.Sound() && s == Run(g, events) && s.Running?
    requires (op.Faults? || op.Recoveries?) && op.i < g.c.deadlines && Accepts(g, s, op)
    ensures Declared(g, s, op, k)
    ensures var start := s.clock.periodStart;
            && s.now <= start + g.c.period
            && k == if s.now < Opening(g.c, start, op.i, 0) + g.c.window then 0
                    else if s.now < start + g.c.period then 1 else 2
  {
    RunClock(g, events);
    PeriodRuns(g.c, g.first, g.registered, s.now);
    var start := s.clock.periodStart;
    MulOrder(0, op.i, g.c.window);
    k := WhichWindow(g.c, start, s.now, op.i);
    AcceptsExactly(g, s, op, Opening(g.c, start, op.i, k));
  }

  lemma {:induction false} WhichWindow(c: Config, start: nat, now: nat, i: nat) returns (k: nat)
    requires c.Tiled() && i < c.deadlines && now <= start + c.period
    ensures OpeningFor(c, start, now, i) == Opening(c, start, i, k)
    ensures k == if now < Opening(c, start, i, 0) + c.window then 0 else if now < start + c.period then 1 else 2
  {
    MulOrder(0, i, c.window);
    if now < start + i * c.window + c.window {
      k := 0;
    } else if now < start + c.period {
      DivBy(now - start, 0, c.period, now - start);
      k := 1;
    } else {
      DivBy(now - start, 1, c.period, 0);
      k := 2;
    }
  }
}
