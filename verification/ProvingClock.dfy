/** The proving clock: when deadlines open and close, when they may be changed, and how the pair
    (proving period start, current deadline) advances block by block
    (pallets/storage-provider/src/deadline.rs, storage_provider.rs and the clock step of lib.rs). */
module ProvingClock {
  import opened Arith

  datatype Config = Config(deadlines: nat, window: nat, period: nat, lookback: nat, cutoff: nat) {
    /** The deadlines tile the proving period, and randomness and fault cutoff reach back at most one period. */
    ghost predicate Tiled() {
      deadlines > 0 && window > 0 && period > 0 && period == deadlines * window && lookback <= period
          && cutoff <= period
    }
  }

  datatype DeadlineInfo = DeadlineInfo(
    block: nat, periodStart: nat, idx: nat, openAt: nat, closeAt: nat, faultCutoff: nat, challenge: nat)
  {
    predicate PeriodStarted() { block >= periodStart }

    predicate IsOpen() { openAt <= block < closeAt }

    predicate HasElapsed() { block >= closeAt }

    predicate FaultCutoffPassed() { block >= faultCutoff }

    /** The last block for a proof, zero if the deadline closes at zero. */
    function Last(): nat { if closeAt == 0 then 0 else closeAt - 1 }
  }

  /** Block numbers are unsigned: the subtractions must not go below zero. */
  function NewDeadlineInfo(c: Config, block: nat, periodStart: nat, idx: nat): DeadlineInfo
    requires idx < c.deadlines ==>
               periodStart + idx * c.window >= c.lookback && periodStart + idx * c.window >= c.cutoff
  {
    if idx < c.deadlines then
      var openAt := periodStart + idx * c.window;
      DeadlineInfo(block, periodStart, idx, openAt, openAt + c.window, openAt - c.cutoff, openAt - c.lookback)
    else
      var after := periodStart + c.period;
      DeadlineInfo(block, periodStart, idx, after, after, 0, after)
  }

  function Next(c: Config, info: DeadlineInfo): DeadlineInfo
    requires c.Tiled() && info.periodStart <= info.block && info.periodStart >= c.period
  {
    var delta := 1 + (info.block - info.periodStart) / c.period;
    NewDeadlineInfo(c, info.block, info.periodStart + c.period * delta, info.idx)
  }

  function NextNotElapsed(c: Config, info: DeadlineInfo): DeadlineInfo
    requires c.Tiled() && info.periodStart >= c.period
    requires info.HasElapsed() ==> info.periodStart <= info.block
  {
    if !info.HasElapsed() then info else Next(c, info)
  }

  predicate DeadlineIsMutable(c: Config, periodStart: nat, idx: nat, block: nat)
    requires c.Tiled() && periodStart >= c.period
  {
    var info := NewDeadlineInfo(c, block, periodStart, idx);
    assert info.closeAt >= periodStart;
    var target := NextNotElapsed(c, info);
    block + c.window < target.openAt
  }

  /** The first proving period starts in the next global period, shifted by the provider's offset. */
  function FirstProvingPeriodStart(block: nat, offset: nat, period: nat): nat
    requires period > 0
  {
    (block / period + 1) * period + offset
  }

  lemma {:induction false} FirstStartInFuture(block: nat, offset: nat, period: nat)
    requires period > 0
    ensures var s := FirstProvingPeriodStart(block, offset, period);
            && s > block && s >= period
            && (offset < period ==> s < block + 2 * period && s % period == offset && s / period == block / period + 1)
  {
    var q, r := Euclid(block, period);
    Distribute(q, 1, period);
    MulOrder(0, q, period);
    if offset < period { DivBy(FirstProvingPeriodStart(block, offset, period), q + 1, period, offset); }
  }

  // ---------- the clock step by step ----------

  datatype Clock = Clock(periodStart: nat, deadline: nat)

  /** Advance to the next deadline, and to the next period after the last one. */
  function Advance(c: Config, k: Clock): Clock
    requires c.deadlines > 0
  {
    var next := (k.deadline + 1) % c.deadlines;
    Clock(if next == 0 then k.periodStart + c.period else k.periodStart, next)
  }

  /** Whether finalising a block closes the current deadline. */
  predicate Closes(c: Config, k: Clock, block: nat)
    requires c.Tiled() && k.periodStart >= c.period
  {
    block >= k.periodStart && NewDeadlineInfo(c, block, k.periodStart, k.deadline).HasElapsed()
  }

  function Tick(c: Config, k: Clock, block: nat): Clock
    requires c.Tiled() && k.periodStart >= c.period
  {
    if Closes(c, k, block) then Advance(c, k) else k
  }

  /** The clock once every block from registration up to but excluding `block` is finalised. */
  function Before(c: Config, first: nat, registered: nat, block: nat): (k: Clock)
    requires c.Tiled() && first >= c.period
    ensures k.periodStart >= c.period
  {
    if block <= registered then Clock(first, 0)
    else Tick(c, Before(c, first, registered, block - 1), block - 1)
  }

  /** The start of the m-th period after the first start. */
  function StartOf(c: Config, first: nat, m: nat): nat {
    MulOrder(0, m, c.period);
    first + m * c.period
  }

  /** The closed form after j windows have passed since the first start. */
  function Windows(c: Config, first: nat, j: nat): Clock
    requires c.Tiled()
  {
    Clock(StartOf(c, first, j / c.deadlines), j % c.deadlines)
  }

  /** The current deadline closes when the next window has passed. */
  lemma {:induction false} ClosesAfterWindow(c: Config, first: nat, j: nat, block: nat)
    requires c.Tiled() && first >= c.period
    ensures Windows(c, first, j).periodStart >= first
    ensures Closes(c, Windows(c, first, j), block) <==> block >= first + j * c.window + c.window
  {
    var m, i := Euclid(j, c.deadlines);
    ClosesAt(c, first, m, i, block);
    ProductSplit(m, c.deadlines, i, c.window);
    MulOrder(0, m, c.period);
  }

  lemma {:induction false} ClosesAt(c: Config, first: nat, m: nat, i: nat, block: nat)
    requires c.Tiled() && first >= c.period && i < c.deadlines
    ensures first + m * c.period >= c.period
    ensures Closes(c, Clock(StartOf(c, first, m), i), block)
            <==> block >= first + m * c.period + i * c.window + c.window
  {
    MulOrder(0, m, c.period);
    MulOrder(0, i, c.window);
  }

  lemma {:induction false} AdvanceWindow(c: Config, first: nat, j: nat)
    requires c.Tiled()
    ensures Advance(c, Windows(c, first, j)) == Windows(c, first, j + 1)
  {
    var m := j / c.deadlines;
    NextIndex(c.deadlines, j);
    MulOrder(m + 1, m, c.period);
  }

  lemma {:induction false} NextIndex(n: nat, j: nat)
    requires n > 0
    ensures (j % n + 1) % n == (j + 1) % n
    ensures (j + 1) / n == if (j + 1) % n == 0 then j / n + 1 else j / n
  {
    var q, i := Euclid(j, n);
    SuccessorQuotient(n, j + 1, q, i);
    SuccessorQuotient(n, i + 1, 0, i);
    QuotientStep(n, j + 1);
  }

  /** One tick of the closed form. */
  lemma {:induction false} TickWindows(c: Config, first: nat, j: nat, block: nat)
    requires c.Tiled() && first >= c.period
    ensures Windows(c, first, j).periodStart >= c.period
    ensures Tick(c, Windows(c, first, j), block)
         == if block >= first + j * c.window + c.window then Windows(c, first, j + 1) else Windows(c, first, j)
  {
    ClosesAfterWindow(c, first, j, block);
    AdvanceWindow(c, first, j);
  }

  lemma {:induction false} WindowsZero(c: Config, first: nat)
    requires c.Tiled()
    ensures Windows(c, first, 0) == Clock(first, 0)
  {
    DivBy(0, 0, c.deadlines, 0);
  }

  /** The windows passed before block b of a run: none up to the first start. */
  function Passed(c: Config, first: nat, block: nat): nat
    requires c.Tiled()
  {
    if block <= first then 0 else (block - 1 - first) / c.window
  }

  lemma {:induction false} PassedStep(c: Config, first: nat, block: nat)
    requires c.Tiled()
    ensures Passed(c, first, block + 1)
         == if block >= first + Passed(c, first, block) * c.window + c.window then Passed(c, first, block) + 1
             else Passed(c, first, block)
  {
    if block > first { QuotientStep(c.window, block - first); } else { DivBy(0, 0, c.window, 0); }
  }

  /** Before every block the clock has its closed form. */
  lemma {:induction false} ClockWindows(c: Config, first: nat, registered: nat, block: nat)
    requires c.Tiled() && first >= c.period && registered <= first
    ensures Before(c, first, registered, block) == Windows(c, first, Passed(c, first, block))
    decreases block
  {
    if block <= registered {
      WindowsZero(c, first);
    } else {
      ClockWindows(c, first, registered, block - 1);
      TickWindows(c, first, Passed(c, first, block - 1), block - 1);
      PassedStep(c, first, block - 1);
    }
  }

  /** After every finalised block at or past the first start, the clock is the quotient and the
      remainder of the blocks elapsed since. */
  lemma {:induction false} ClockClosedForm(c: Config, first: nat, registered: nat, block: nat)
    requires c.Tiled() && first >= c.period && registered <= first <= block
    ensures Before(c, first, registered, block + 1)
         == Clock(StartOf(c, first, (block - first) / c.period), (block - first) % c.period / c.window)
  {
    ClockWindows(c, first, registered, block + 1);
    WindowsClosedForm(c, first, block - first);
  }

  lemma {:induction false} WindowsClosedForm(c: Config, first: nat, t: nat)
    requires c.Tiled()
    ensures Windows(c, first, t / c.window) == Clock(StartOf(c, first, t / c.period), t % c.period / c.window)
  {
    var m, i := DivTwice(c.deadlines, c.window, c.period, t);
  }

  /** Finalising a block past the first start closes a deadline exactly at the end of a window. */
  lemma {:induction false} ClosesAtWindowEnd(c: Config, first: nat, registered: nat, block: nat)
    requires c.Tiled() && first >= c.period && registered <= first < block
    ensures var k := Before(c, first, registered, block);
            && (Closes(c, k, block) <==> (block - first) % c.window == 0)
            && k.deadline == (block - first - 1) / c.window % c.deadlines
  {
    ClockWindows(c, first, registered, block);
    ClosesAfterWindow(c, first, Passed(c, first, block), block);
    QuotientStep(c.window, block - first);
  }

  /** A deadline is closed at its own closing block and never later. */
  lemma {:induction false} ClosesOnTime(c: Config, first: nat, registered: nat, block: nat)
    requires c.Tiled() && first >= c.period && registered <= first
    ensures var k := Before(c, first, registered, block);
            && k.periodStart + k.deadline * c.window >= c.period && k.deadline < c.deadlines
            && (Closes(c, k, block) ==> block == NewDeadlineInfo(c, block, k.periodStart, k.deadline).closeAt)
  {
    var j := Passed(c, first, block);
    var m, i := Euclid(j, c.deadlines);
    ClockWindows(c, first, registered, block);
    ProductSplit(m, c.deadlines, i, c.window);
    MulOrder(0, m, c.period);
    MulOrder(0, i, c.window);
    if block > first { var q, r := Euclid(block - 1 - first, c.window); }
  }

  /** In every proving period each deadline is closed at exactly one block, its own closing block. */
  lemma {:induction false} ClosedOncePerPeriod(c: Config, first: nat, registered: nat, m: nat, i: nat, block: nat)
    requires c.Tiled() && first >= c.period && registered <= first && i < c.deadlines
    requires first + m * c.period < block <= first + m * c.period + c.period
    ensures var k := Before(c, first, registered, block);
            k.deadline == i && Closes(c, k, block) <==> block == first + m * c.period + (i + 1) * c.window
  {
    var t := block - first;
    MulOrder(0, m, c.period);
    ClosesAtWindowEnd(c, first, registered, block);
    ClosingBlock(c.deadlines, c.window, m, i, t);
  }

  lemma {:induction false} ClosingBlock(n: nat, w: nat, m: nat, i: nat, t: nat)
    requires n > 0 && w > 0 && n * w > 0 && i < n && m * (n * w) < t <= m * (n * w) + n * w
    ensures (t - 1) / w % n == i && t % w == 0 <==> t == m * (n * w) + (i + 1) * w
  {
    var j, r := Euclid(t - 1, w);
    var m', i' := Euclid(j, n);
    NestedQuotient(n, w, t - 1, m', i', r);
    DivBy(t - 1, m, n * w, t - 1 - m * (n * w));
    SuccessorQuotient(w, t, j, r);
    ProductSplit(m, n, i, w);
    MulOrder(i + 1, i, w);
    if t == m * (n * w) + (i + 1) * w {
      DivBy(t - 1, m * n + i, w, w - 1);
      DivBy(m * n + i, m, n, i);
    }
  }

  // ---------- mutability ----------

  /** The k-th time deadline i opens, counted from a period start. */
  function Opening(c: Config, periodStart: nat, i: nat, k: nat): nat {
    periodStart + k * c.period + i * c.window
  }

  /** Inside a proving period a deadline is immutable exactly when it is the open one or the next one. */
  lemma {:induction false} MutableInPeriod(c: Config, periodStart: nat, i: nat, block: nat)
    requires c.Tiled() && c.deadlines >= 2 && periodStart >= c.period && i < c.deadlines
    requires periodStart <= block < periodStart + c.period
    ensures var open := (block - periodStart) / c.window;
            && open < c.deadlines
            && (DeadlineIsMutable(c, periodStart, i, block) <==> i != open && i != (open + 1) % c.deadlines)
  {
    var t := block - periodStart;
    var open, r := Euclid(t, c.window);
    MulOrder(open, c.deadlines - 1, c.window);
    if open + 1 < c.deadlines { DivBy(open + 1, 0, c.deadlines, open + 1); }
        else { DivBy(open + 1, 1, c.deadlines, 0); }
    DivBy(t, 0, c.period, t);
    TargetOpening(c, periodStart, i, block, 0);
    MutableByWindows(c.deadlines, c.window, open, r, i);
  }

  /** Where block open * w + r stands relative to the windows of deadline i in this period and the next. */
  lemma {:induction false} MutableByWindows(n: nat, w: nat, open: nat, r: nat, i: nat)
    requires n >= 2 && r < w && open < n && i < n
    ensures open * w + r >= i * w + w <==> i < open
    ensures i >= open ==> (open * w + r + w < i * w <==> i > open + 1)
    ensures i < open ==> (open * w + r + w < n * w + i * w <==> i > 0 || open + 1 < n)
  {
    MulOrder(i, open, w);
    MulOrder(open, i, w);
    MulOrder(i, open + 1, w);
    MulOrder(open + 1, open, w);
    MulOrder(open + 1, n - 1, w);
    MulOrder(n, open + 1, w);
    MulOrder(i, 0, w);
    MulOrder(n, open, w);
  }

  /** Which occurrence of a deadline next_not_elapsed picks. */
  lemma {:induction false} TargetOpening(c: Config, periodStart: nat, i: nat, block: nat, q: nat)
    requires c.Tiled() && periodStart >= c.period && i < c.deadlines && periodStart <= block
    requires q == (block - periodStart) / c.period
    ensures var target := NextNotElapsed(c, NewDeadlineInfo(c, block, periodStart, i));
            && target.closeAt == target.openAt + c.window
            && target.openAt == Opening(c, periodStart, i,
                                        if block - periodStart >= i * c.window + c.window then q + 1 else 0)
            && Opening(c, periodStart, i, 0) == periodStart + i * c.window
            && Opening(c, periodStart, i, q + 1) == periodStart + q * c.period + c.period + i * c.window
  {
    assert c.period * (1 + q) == (q + 1) * c.period;
    MulOrder(q + 1, q, c.period);
  }

  ghost function Immutable(c: Config, periodStart: nat, block: nat): set<nat>
    requires c.Tiled() && periodStart >= c.period
  {
    set i: nat | i < c.deadlines && !DeadlineIsMutable(c, periodStart, i, block)
  }

  lemma {:induction false} ImmutableAt(c: Config, periodStart: nat, block: nat, i: nat, open: nat, next: nat)
    requires c.Tiled() && c.deadlines >= 2 && periodStart >= c.period
    requires periodStart <= block < periodStart + c.period
    requires open == (block - periodStart) / c.window && next == (open + 1) % c.deadlines && open < c.deadlines
             && next < c.deadlines
    ensures i in Immutable(c, periodStart, block) <==> i == open || i == next
  {
    if i < c.deadlines { MutableInPeriod(c, periodStart, i, block); }
  }

  lemma {:induction false} TwoOf(s: set<nat>, a: nat, b: nat, n: nat)
    requires a != b && forall i: nat :: i in s <==> i == a || i == b
    ensures |s| == 2 && (n >= 3 ==> exists i: nat :: i < n && i !in s)
  {
    assert s == {a, b};
    var other: nat := if a != 0 && b != 0 then 0 else if a != 1 && b != 1 then 1 else 2;
    assert other !in s;
  }

  /** So exactly two deadlines are immutable at every block of a period, and with three or more
      deadlines a mutable one always exists. */
  lemma {:induction false} TwoImmutable(c: Config, periodStart: nat, block: nat)
    requires c.Tiled() && c.deadlines >= 2 && periodStart >= c.period
    requires periodStart <= block < periodStart + c.period
    ensures |Immutable(c, periodStart, block)| == 2
    ensures c.deadlines >= 3 ==> exists i: nat :: i < c.deadlines && i !in Immutable(c, periodStart, block)
  {
    var open := OpenIndex(c.deadlines, c.window, block - periodStart);
    var next := NextOpen(c.deadlines, open);
    forall i: nat ensures i in Immutable(c, periodStart, block) <==> i == open || i == next {
      ImmutableAt(c, periodStart, block, i, open, next);
    }
    TwoOf(Immutable(c, periodStart, block), open, next, c.deadlines);
  }

  lemma {:induction false} OpenIndex(n: nat, w: nat, t: nat) returns (open: nat)
    requires w > 0 && t < n * w
    ensures open == t / w && open < n
  {
    var r;
    open, r := Euclid(t, w);
    MulOrder(open, n - 1, w);
  }

  lemma {:induction false} NextOpen(n: nat, open: nat) returns (next: nat)
    requires n >= 2 && open < n
    ensures next == (open + 1) % n && next < n && next != open
  {
    next := if open + 1 < n then open + 1 else 0;
    if open + 1 < n { DivBy(open + 1, 0, n, open + 1); } else { DivBy(open + 1, 1, n, 0); }
  }

  /** At the very end of a period every deadline has closed, and each one counts as mutable although
      the first of them is opening again. */
  lemma {:induction false} MutableAtPeriodEnd(c: Config, periodStart: nat, i: nat)
    requires c.Tiled() && c.deadlines >= 2 && periodStart >= c.period && i < c.deadlines
    ensures DeadlineIsMutable(c, periodStart, i, periodStart + c.period)
  {
    DivBy(c.period, 1, c.period, 0);
    TargetOpening(c, periodStart, i, periodStart + c.period, 1);
    MulOrder(i, c.deadlines - 1, c.window);
    MulOrder(c.deadlines, c.deadlines - 1, c.window);
    MulOrder(c.deadlines, 1, c.window);
    MulOrder(0, i, c.window);
  }

  /** At the block at which it closes a deadline counts as mutable, if there are at least three. */
  lemma {:induction false} MutableWhenClosing(c: Config, periodStart: nat, i: nat)
    requires c.Tiled() && c.deadlines >= 3 && periodStart >= c.period && i < c.deadlines
    ensures i * c.window >= 0 && DeadlineIsMutable(c, periodStart, i, periodStart + i * c.window + c.window)
  {
    MulOrder(0, i, c.window);
    MulOrder(i + 1, i, c.window);
    if i + 1 == c.deadlines {
      MutableAtPeriodEnd(c, periodStart, i);
    } else {
      MulOrder(c.deadlines, i + 1, c.window);
      DivBy(i * c.window + c.window, i + 1, c.window, 0);
      MutableInPeriod(c, periodStart, i, periodStart + i * c.window + c.window);
      if i + 2 < c.deadlines { DivBy(i + 2, 0, c.deadlines, i + 2); } else { DivBy(i + 2, 1, c.deadlines, 0); }
    }
  }

  /** During block b of a run, the open deadline and the next one are immutable and all others
      mutable, except in the first block of every later period, when all of them are mutable. */
  lemma {:induction false} MutableDuringBlock(c: Config, first: nat, registered: nat, i: nat, block: nat)
    requires c.Tiled() && c.deadlines >= 2 && first >= c.period && registered <= first <= block && i < c.deadlines
    ensures var start := Before(c, first, registered, block).periodStart;
            var open := (block - first) % c.period / c.window;
            DeadlineIsMutable(c, start, i, block) <==>
              (block > first && (block - first) % c.period == 0) || (i != open && i != (open + 1) % c.deadlines)
  {
    if block == first {
      ClockWindows(c, first, registered, block);
      WindowsZero(c, first);
      DivBy(0, 0, c.period, 0);
      MutableInPeriod(c, first, i, block);
    } else {
      ClockClosedForm(c, first, registered, block - 1);
      MutableLater(c, first, i, block);
    }
  }

  lemma {:induction false} MutableLater(c: Config, first: nat, i: nat, block: nat)
    requires c.Tiled() && c.deadlines >= 2 && first >= c.period && first < block && i < c.deadlines
    ensures StartOf(c, first, (block - 1 - first) / c.period) >= c.period
    ensures var open := (block - first) % c.period / c.window;
            DeadlineIsMutable(c, StartOf(c, first, (block - 1 - first) / c.period), i, block) <==>
              (block - first) % c.period == 0 || (i != open && i != (open + 1) % c.deadlines)
  {
    var q, r := Euclid(block - 1 - first, c.period);
    MulOrder(0, q, c.period);
    SuccessorQuotient(c.period, block - first, q, r);
    var start := StartOf(c, first, q);
    if block == start + c.period {
      MutableAtPeriodEnd(c, start, i);
    } else {
      MutableInPeriod(c, start, i, block);
    }
  }

  /** The target is the earliest occurrence that has not closed. */
  ghost predicate Earliest(c: Config, periodStart: nat, i: nat, block: nat, openAt: nat) {
    forall k: nat :: Opening(c, periodStart, i, k) + c.window > block ==> openAt <= Opening(c, periodStart, i, k)
  }

  /** next_not_elapsed answers with an occurrence that has not closed, and it is the earliest such
      occurrence exactly when the period is still running or this period's occurrence has closed. */
  lemma {:induction false} NextNotElapsedEarliest(c: Config, periodStart: nat, i: nat, block: nat)
    requires c.Tiled() && periodStart >= c.period && i < c.deadlines && periodStart <= block
    ensures var target := NextNotElapsed(c, NewDeadlineInfo(c, block, periodStart, i));
            && target.closeAt > block
            && (exists k: nat :: target.openAt == Opening(c, periodStart, i, k))
            && (Earliest(c, periodStart, i, block, target.openAt)
                <==> block < periodStart + c.period || (block - periodStart) % c.period >= i * c.window + c.window)
  {
    var t := block - periodStart;
    var q, r := Euclid(t, c.period);
    TargetOpening(c, periodStart, i, block, q);
    MulOrder(i, c.deadlines - 1, c.window);
    MulOrder(c.deadlines, c.deadlines - 1, c.window);
    if t < i * c.window + c.window {
      DivBy(t, 0, c.period, t);
      FirstOpening(c, periodStart, i, block);
    } else {
      if t < c.period { DivBy(t, 0, c.period, t); }
      LaterOpening(c, periodStart, i, q, r);
    }
  }

  lemma {:induction false} FirstOpening(c: Config, periodStart: nat, i: nat, block: nat)
    ensures Earliest(c, periodStart, i, block, Opening(c, periodStart, i, 0))
  {
    forall k: nat ensures Opening(c, periodStart, i, 0) <= Opening(c, periodStart, i, k) { MulOrder(0, k, c.period); }
  }

  lemma {:induction false} LaterOpening(c: Config, periodStart: nat, i: nat, q: nat, r: nat)
    requires r < c.period && i * c.window + c.window <= c.period
    ensures Opening(c, periodStart, i, q + 1) + c.window > periodStart + q * c.period + r
    ensures Earliest(c, periodStart, i, periodStart + q * c.period + r, Opening(c, periodStart, i, q + 1))
       <==> r >= i * c.window + c.window
  {
    MulOrder(q + 1, q, c.period);
    if r >= i * c.window + c.window {
      forall k: nat | Opening(c, periodStart, i, k) + c.window > periodStart + q * c.period + r
        ensures Opening(c, periodStart, i, q + 1) <= Opening(c, periodStart, i, k)
      {
        MulOrder(k, q, c.period);
      }
    } else {
      assert Opening(c, periodStart, i, q) == periodStart + q * c.period + i * c.window;
    }
  }
}
