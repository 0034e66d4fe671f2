/** Bounded popping of early terminations conserves them: every pop stays within its limits, moves
    sectors from the record to its result without loss or duplication, and makes progress, so that
    enough pops drain the record. */
module Draining {
  import opened Arith
  import opened Results
  import opened ExpirationQueue
  import opened Partitions
  import opened EarlyTerminations
  import opened Deadlines
  import opened DeadlineSpec
  import opened Providers

  /** The recorded pairs of termination block and sector. */
  ghost function Items(t: Terminations): set<(nat, nat)> {
    set b, s | b in t && s in t[b] :: (b, s)
  }

  ghost function PartItems(parts: Parts): set<(nat, nat)> {
    set n, x | n in parts && x in Items(parts[n].earlyTerminations) :: x
  }

  /** Different partitions record different sectors. */
  ghost predicate Separate(parts: Parts) {
    forall m, n, x, y ::
      m in parts && n in parts && x in Items(parts[m].earlyTerminations) && y in Items(parts[n].earlyTerminations)
          && x.1 == y.1
      ==> m == n
  }

  // ---------- one partition ----------

  lemma {:induction false} ItemsSplit(t: Terminations, taken: Terminations, rest: Terminations)
    requires Splits(t, taken, rest)
    ensures Items(t) == Items(taken) + Items(rest) && Items(taken) !! Items(rest)
  {
    forall x: (nat, nat) ensures x in Items(t) <==> x in Items(taken) || x in Items(rest) {
      var (b, s) := x;
      if x in Items(t) { assert s in SectorsAt(taken, b) + SectorsAt(rest, b); }
      if x in Items(taken) || x in Items(rest) { assert s in t[b]; }
    }
    forall x: (nat, nat) | x in Items(taken) ensures x !in Items(rest) {
      assert SectorsAt(taken, x.0) !! SectorsAt(rest, x.0);
    }
  }

  lemma {:induction false} SizeIsItems(t: Terminations)
    ensures |Items(t)| == Size(t)
    decreases t.Keys
  {
    if t != map[] {
      var b := Least(t.Keys);
      assert (t - {b}).Keys == t.Keys - {b};
      SizeIsItems(t - {b});
      PairCount(b, t[b]);
      assert Items(t) == Pairs(b, t[b]) + Items(t - {b});
      assert Pairs(b, t[b]) !! Items(t - {b});
      SizeRemove(t, b);
    } else {
      assert Items(t) == {};
    }
  }

  ghost function Pairs(b: nat, sectors: set<nat>): set<(nat, nat)> {
    set s | s in sectors :: (b, s)
  }

  lemma {:induction false} PairCount(b: nat, sectors: set<nat>)
    ensures |Pairs(b, sectors)| == |sectors|
  {
    if sectors != {} {
      var x :| x in sectors;
      PairCount(b, sectors - {x});
      assert Pairs(b, sectors) == Pairs(b, sectors - {x}) + {(b, x)};
      assert (b, x) !in Pairs(b, sectors - {x});
    } else {
      assert Pairs(b, sectors) == {};
    }
  }

  lemma {:induction false} MergeItems(a: Terminations, b: Terminations)
    ensures Items(Merge(a, b)) == Items(a) + Items(b)
  {
    forall x: (nat, nat) ensures x in Items(Merge(a, b)) <==> x in Items(a) + Items(b) {
      var m := Merge(a, b);
      if x in Items(a) || x in Items(b) { assert x.0 in m && x.1 in m[x.0]; }
    }
  }

  /** What one partition's pop moves. */
  lemma {:induction false} PopMoves(t: Terminations, max: nat, r: Popped)
    requires r == Pop(t, max)
    ensures Items(t) == Items(r.rest) + Items(r.taken) && Items(r.rest) !! Items(r.taken)
  {
    PopSplits(t, max);
    ItemsSplit(t, r.taken, r.rest);
  }

  lemma {:induction false} PopMovesCount(t: Terminations, max: nat, r: Popped)
    requires r == Pop(t, max)
    ensures |Items(r.taken)| == r.count <= max
  {
    PopCounts(t, max);
    SizeIsItems(r.taken);
  }

  // ---------- one deadline ----------

  ghost predicate Poppable(d: Deadline) {
    Separate(d.partitions) && Marked(d.partitions, d.earlyTerminations)
  }

  /** The state of a collection: what is left and what is collected are disjoint and make up `all`. */
  ghost predicate Collected(all: set<(nat, nat)>, left: set<(nat, nat)>, so: TerminationResult) {
    all == left + Items(so.sectors) && left !! Items(so.sectors) && |Items(so.sectors)| == so.sectorsProcessed
  }

  lemma {:induction false} CollectMore(all: set<(nat, nat)>, left: set<(nat, nat)>, so: TerminationResult,
                                       left': set<(nat, nat)>, result: TerminationResult)
    requires Collected(all, left, so) && Collected(left, left', result)
    ensures Collected(all, left', so.Add(result))
  {
    MergeItems(so.sectors, result.sectors);
    JoinDisjoint(all, left, Items(so.sectors), left', Items(result.sectors));
  }

  lemma {:induction false} JoinDisjoint<T>(all: set<T>, left: set<T>, a: set<T>, left': set<T>, b: set<T>)
    requires all == left + a && left !! a && left == left' + b && left' !! b
    ensures all == left' + (a + b) && left' !! a + b && |a + b| == |a| + |b|
  {
    assert a !! b;
  }

  /** Popping one partition moves its sectors out of the deadline's record. */
  lemma {:induction false} AfterPopMoves(d: Deadline, n: nat, max: nat)
    requires n in d.partitions && Poppable(d)
    ensures Poppable(AfterPop(d, n, max))
    ensures Collected(PartItems(d.partitions), PartItems(AfterPop(d, n, max).partitions),
                      PopPartition(d.partitions[n], max).1)
  {
    var t := d.partitions[n].earlyTerminations;
    var r := Pop(t, max);
    PopMoves(t, max, r);
    PopMovesCount(t, max, r);
    var p := d.partitions[n].(earlyTerminations := r.rest);
    ReplaceItems(d.partitions, n, p, Items(r.taken));
    ReplaceSeparate(d.partitions, n, p);
    StillMarked(d.partitions, d.earlyTerminations, n, p, r.rest != map[]);
  }

  lemma {:induction false} ReplaceItems(parts: Parts, n: nat, p: Partition, taken: set<(nat, nat)>)
    requires n in parts && Separate(parts)
    requires Items(parts[n].earlyTerminations) == Items(p.earlyTerminations) + taken
             && Items(p.earlyTerminations) !! taken
    ensures PartItems(parts) == PartItems(parts[n := p]) + taken && PartItems(parts[n := p]) !! taken
  {
    var parts' := parts[n := p];
    forall x ensures x in PartItems(parts) <==> x in PartItems(parts') || x in taken {
      if x in PartItems(parts) {
        var m :| m in parts && x in Items(parts[m].earlyTerminations);
        assert m in parts' && (m != n ==> x in Items(parts'[m].earlyTerminations));
      }
      if x in PartItems(parts') {
        var m :| m in parts' && x in Items(parts'[m].earlyTerminations);
        assert m in parts && x in Items(parts[m].earlyTerminations);
      }
      if x in taken { assert x in Items(parts[n].earlyTerminations); }
    }
    ReplacedApart(parts, n, p, taken);
  }

  lemma {:induction false} ReplacedApart(parts: Parts, n: nat, p: Partition, taken: set<(nat, nat)>)
    requires n in parts && Separate(parts)
    requires taken <= Items(parts[n].earlyTerminations) && Items(p.earlyTerminations) !! taken
    ensures PartItems(parts[n := p]) !! taken
  {
    var parts' := parts[n := p];
    forall x | x in PartItems(parts') ensures x !in taken {
      var m :| m in parts' && x in Items(parts'[m].earlyTerminations);
      assert m != n ==> x !in Items(parts[n].earlyTerminations);
    }
  }

  lemma {:induction false} ReplaceSeparate(parts: Parts, n: nat, p: Partition)
    requires n in parts && Separate(parts) && Items(p.earlyTerminations) <= Items(parts[n].earlyTerminations)
    ensures Separate(parts[n := p])
  {
    var parts' := parts[n := p];
    assert forall m, x :: m in parts' && x in Items(parts'[m].earlyTerminations) ==>
        x in Items(parts[m].earlyTerminations);
  }

  lemma {:induction false} StillMarked(parts: Parts, marks: set<nat>, n: nat, p: Partition, more: bool)
    requires n in parts && Marked(parts, marks) && Items(p.earlyTerminations) <= Items(parts[n].earlyTerminations)
    requires more <==> p.earlyTerminations != map[]
    ensures Marked(parts[n := p], if more then marks else marks - {n})
  {
    var parts' := parts[n := p];
    forall m | m in parts' && (m !in marks || (m == n && !more)) ensures NothingRecorded(parts'[m]) {
      if m == n && more {
        assert NothingRecorded(parts[n]);
        assert Items(parts[n].earlyTerminations) == {};
        forall b, s | b in p.earlyTerminations ensures s !in p.earlyTerminations[b] {
          assert (b, s) !in Items(p.earlyTerminations);
        }
      } else if m != n {
        assert NothingRecorded(parts[m]);
      }
    }
  }

  lemma {:induction false} Unmark(d: Deadline, n: nat)
    requires Poppable(d) && n !in d.partitions
    ensures Poppable(d.(earlyTerminations := d.earlyTerminations - {n}))
  {
  }

  /** The whole pop of a deadline, step by step. */
  lemma {:induction false} PopMarkedMoves(d: Deadline, todo: set<nat>, maxPartitions: nat, maxSectors: nat,
                                          so: TerminationResult,
                                          all: set<(nat, nat)>, r: (Deadline, TerminationResult))
    requires Poppable(d) && so.sectorsProcessed <= maxSectors && Collected(all, PartItems(d.partitions), so)
    requires so.partitionsProcessed < maxPartitions && r == PopMarked(d, todo, maxPartitions, maxSectors, so)
    ensures Drained(r, all, maxPartitions, maxSectors)
    decreases todo
  {
    if todo == {} {
      assert r == (d, so);
    } else {
      var n := Least(todo);
      if n !in d.partitions {
        Unmark(d, n);
        PopMarkedMoves(d.(earlyTerminations := d.earlyTerminations - {n}), todo - {n}, maxPartitions, maxSectors, so,
                       all, r);
      } else {
        var max := maxSectors - so.sectorsProcessed;
        var result, d', so' := PopMarkedUnfold(d, n, todo, maxPartitions, maxSectors, so, r, max);
        AfterPopMoves(d, n, max);
        CollectMore(all, PartItems(d.partitions), so, PartItems(d'.partitions), result);
        if so'.BelowLimit(maxPartitions, maxSectors) {
          PopMarkedMoves(d', todo - {n}, maxPartitions, maxSectors, so', all, r);
        }
      }
    }
  }

  ghost predicate Drained(r: (Deadline, TerminationResult), all: set<(nat, nat)>, maxPartitions: nat, maxSectors: nat) {
    && Poppable(r.0) && Collected(all, PartItems(r.0.partitions), r.1)
    && r.1.partitionsProcessed <= maxPartitions && r.1.sectorsProcessed <= maxSectors
  }

  lemma {:induction false} UnmarkedEmpty(parts: Parts)
    requires Marked(parts, {})
    ensures PartItems(parts) == {}
  {
    forall x ensures x !in PartItems(parts) {
      forall n | n in parts ensures x !in Items(parts[n].earlyTerminations) { assert NothingRecorded(parts[n]); }
    }
  }

  /** A deadline's pop conserves its record, keeps to its limits, and reports no more only when none is left. */
  lemma {:induction false} DeadlinePopMoves(d: Deadline, maxPartitions: nat, maxSectors: nat,
                                            r: (Deadline, TerminationResult, bool))
    requires Poppable(d) && maxPartitions > 0 && r == Deadlines.PopEarlyTerminations(d, maxPartitions, maxSectors)
    ensures Drained((r.0, r.1), PartItems(d.partitions), maxPartitions, maxSectors)
    ensures !r.2 ==> PartItems(r.0.partitions) == {}
  {
    assert Items(NO_TERMINATIONS.sectors) == {};
    PopMarkedMoves(d, d.earlyTerminations, maxPartitions, maxSectors, NO_TERMINATIONS, PartItems(d.partitions),
                   (r.0, r.1));
    if !r.2 { UnmarkedEmpty(r.0.partitions); }
  }

  // ---------- the provider ----------

  ghost function ItemsOf(sp: Provider, i: nat): set<(nat, nat)>
    requires i < |sp.deadlines|
  {
    PartItems(sp.deadlines[i].partitions)
  }

  ghost function AllItems(sp: Provider): set<(nat, nat)> {
    set i, x | 0 <= i < |sp.deadlines| && x in ItemsOf(sp, i) :: x
  }

  /** Marked deadlines exist, unmarked ones have nothing recorded, and no sector is recorded twice. */
  ghost predicate Sound(sp: Provider) {
    && (forall i :: i in sp.earlyTerminations ==> i < |sp.deadlines|)
    && (forall i :: 0 <= i < |sp.deadlines| ==> Poppable(sp.deadlines[i]))
    && (forall i :: 0 <= i < |sp.deadlines| && i !in sp.earlyTerminations ==> ItemsOf(sp, i) == {})
    && (forall i, j, x, y ::
          0 <= i < |sp.deadlines| && 0 <= j < |sp.deadlines| && x in ItemsOf(sp, i) && y in ItemsOf(sp, j) && x.1 == y.1
          ==> i == j)
  }

  lemma {:induction false} StepMoves(sp: Provider, i: nat, maxPartitions: nat, maxSectors: nat, sp': Provider,
                                     result: TerminationResult)
    requires Sound(sp) && i < |sp.deadlines| && maxPartitions > 0
    requires sp' == AfterDeadlinePop(sp, i, maxPartitions, maxSectors)
    requires result == Deadlines.PopEarlyTerminations(sp.deadlines[i], maxPartitions, maxSectors).1
    ensures Sound(sp') && |sp'.deadlines| == |sp.deadlines|
    ensures Collected(AllItems(sp), AllItems(sp'), result)
    ensures result.partitionsProcessed <= maxPartitions && result.sectorsProcessed <= maxSectors
  {
    var r := Deadlines.PopEarlyTerminations(sp.deadlines[i], maxPartitions, maxSectors);
    DeadlinePopMoves(sp.deadlines[i], maxPartitions, maxSectors, r);
    ReplaceDeadline(sp, i, r.0, r.2, Items(result.sectors));
  }

  lemma {:induction false} ReplaceDeadline(sp: Provider, i: nat, d: Deadline, more: bool, taken: set<(nat, nat)>)
    requires Sound(sp) && i < |sp.deadlines| && Poppable(d) && (!more ==> PartItems(d.partitions) == {})
    requires ItemsOf(sp, i) == PartItems(d.partitions) + taken && PartItems(d.partitions) !! taken
    ensures var sp' := Provider(sp.deadlines[i := d],
                                if more then sp.earlyTerminations else sp.earlyTerminations - {i});
            Sound(sp') && AllItems(sp) == AllItems(sp') + taken && AllItems(sp') !! taken
  {
    var sp' := Provider(sp.deadlines[i := d], if more then sp.earlyTerminations else sp.earlyTerminations - {i});
    assert forall j :: 0 <= j < |sp.deadlines| ==>
        ItemsOf(sp', j) == if j == i then PartItems(d.partitions) else ItemsOf(sp, j);
    ReplaceSound(sp, sp', i, more);
    ReplaceAll(sp, sp', i, taken);
  }

  lemma {:induction false} ReplaceSound(sp: Provider, sp': Provider, i: nat, more: bool)
    requires Sound(sp) && i < |sp.deadlines| == |sp'.deadlines| && Poppable(sp'.deadlines[i])
    requires forall j :: 0 <= j < |sp.deadlines| && j != i ==> sp'.deadlines[j] == sp.deadlines[j]
    requires sp'.earlyTerminations == if more then sp.earlyTerminations else sp.earlyTerminations - {i}
    requires ItemsOf(sp', i) <= ItemsOf(sp, i) && (!more ==> ItemsOf(sp', i) == {})
    ensures Sound(sp')
  {
    assert forall j :: 0 <= j < |sp.deadlines| ==> ItemsOf(sp', j) <= ItemsOf(sp, j);
    forall j | 0 <= j < |sp'.deadlines| && j !in sp'.earlyTerminations ensures ItemsOf(sp', j) == {} {
      assert j !in sp.earlyTerminations ==> ItemsOf(sp, j) == {};
    }
  }

  lemma {:induction false} ReplaceAll(sp: Provider, sp': Provider, i: nat, taken: set<(nat, nat)>)
    requires Sound(sp) && i < |sp.deadlines| == |sp'.deadlines|
    requires forall j :: 0 <= j < |sp.deadlines| && j != i ==> ItemsOf(sp', j) == ItemsOf(sp, j)
    requires ItemsOf(sp, i) == ItemsOf(sp', i) + taken && ItemsOf(sp', i) !! taken
    ensures AllItems(sp) == AllItems(sp') + taken && AllItems(sp') !! taken
  {
    forall x ensures x in AllItems(sp) <==> x in AllItems(sp') || x in taken { ReplacedItem(sp, sp', i, taken, x); }
    forall x | x in AllItems(sp') ensures x !in taken {
      var j :| 0 <= j < |sp'.deadlines| && x in ItemsOf(sp', j);
      assert j != i ==> x !in ItemsOf(sp, i);
    }
  }

  lemma {:induction false} ReplacedItem(sp: Provider, sp': Provider, i: nat, taken: set<(nat, nat)>, x: (nat, nat))
    requires i < |sp.deadlines| == |sp'.deadlines| && ItemsOf(sp, i) == ItemsOf(sp', i) + taken
    requires forall j :: 0 <= j < |sp.deadlines| && j != i ==> ItemsOf(sp', j) == ItemsOf(sp, j)
    ensures x in AllItems(sp) <==> x in AllItems(sp') || x in taken
  {
    if x in AllItems(sp) {
      var j :| 0 <= j < |sp.deadlines| && x in ItemsOf(sp, j);
      assert x in ItemsOf(sp', j) || x in taken;
    }
    if x in AllItems(sp') {
      var j :| 0 <= j < |sp'.deadlines| && x in ItemsOf(sp', j);
      assert x in ItemsOf(sp, j);
    }
    if x in taken { assert x in ItemsOf(sp, i); }
  }

  /** The outcome of a provider-level pop. */
  ghost predicate PopsWell(r: Result<(Provider, TerminationResult), Error>, all: set<(nat, nat)>, maxPartitions: nat,
                           maxSectors: nat) {
    && r.Ok? && Sound(r.value.0) && Collected(all, AllItems(r.value.0), r.value.1)
    && r.value.1.partitionsProcessed <= maxPartitions && r.value.1.sectorsProcessed <= maxSectors
  }

  lemma {:induction false} PopDeadlinesMoves(sp: Provider, todo: set<nat>, maxPartitions: nat, maxSectors: nat,
                                             so: TerminationResult,
                                             all: set<(nat, nat)>, r: Result<(Provider, TerminationResult), Error>)
    requires Sound(sp) && (forall i :: i in todo ==> i < |sp.deadlines|) && Collected(all, AllItems(sp), so)
    requires so.partitionsProcessed < maxPartitions && so.sectorsProcessed < maxSectors
    requires r == PopDeadlines(sp, todo, maxPartitions, maxSectors, so)
    ensures PopsWell(r, all, maxPartitions, maxSectors)
    decreases todo
  {
    if todo == {} {
      assert r == Ok((sp, so));
    } else {
      var i := Least(todo);
      var leftPartitions, leftSectors := maxPartitions - so.partitionsProcessed, maxSectors - so.sectorsProcessed;
      var result, sp', so' := PopDeadlinesUnfold(sp, i, todo, maxPartitions, maxSectors, so, r, leftPartitions,
                                                 leftSectors);
      StepMoves(sp, i, leftPartitions, leftSectors, sp', result);
      CollectMore(all, AllItems(sp), so, AllItems(sp'), result);
      if so'.BelowLimit(maxPartitions, maxSectors) {
        PopDeadlinesMoves(sp', todo - {i}, maxPartitions, maxSectors, so', all, r);
      }
    }
  }

  /** A pop with positive limits always succeeds within them, and moves exactly what it returns. */
  lemma {:induction false} PopMovesItems(sp: Provider, maxPartitions: nat, maxSectors: nat)
    requires Sound(sp) && maxPartitions > 0 && maxSectors > 0
    ensures PopsWell(Providers.PopEarlyTerminations(sp, maxPartitions, maxSectors), AllItems(sp), maxPartitions,
                     maxSectors)
  {
    assert Items(NO_TERMINATIONS.sectors) == {};
    if sp.earlyTerminations != {} {
      PopDeadlinesMoves(sp, sp.earlyTerminations, maxPartitions, maxSectors, NO_TERMINATIONS, AllItems(sp),
                        PopDeadlines(sp, sp.earlyTerminations, maxPartitions, maxSectors, NO_TERMINATIONS));
    }
  }

  // ---------- progress ----------

  /** The pieces of outstanding work of a deadline: recorded sectors, record entries and marks. */
  datatype Work = Sector(n: nat, b: nat, s: nat) | Entry(n: nat, b: nat) | Mark(n: nat)

  ghost predicate Outstanding(d: Deadline, w: Work) {
    match w
    case Sector(n, b, s) => n in d.partitions && (b, s) in Items(d.partitions[n].earlyTerminations)
    case Entry(n, b) => n in d.partitions && b in d.partitions[n].earlyTerminations
    case Mark(n) => n in d.earlyTerminations
  }

  ghost predicate Shrinks(d: Deadline, d': Deadline) {
    forall w :: Outstanding(d', w) ==> Outstanding(d, w)
  }

  ghost predicate Dropped(d: Deadline, d': Deadline) {
    exists w :: Outstanding(d, w) && !Outstanding(d', w)
  }

  lemma {:induction false} AfterPopShrinks(d: Deadline, n: nat, max: nat, d': Deadline)
    requires n in d.partitions && d' == AfterPop(d, n, max)
    ensures Shrinks(d, d')
    ensures n in d.earlyTerminations && max > 0 ==> Dropped(d, d')
  {
    var t := d.partitions[n].earlyTerminations;
    var r := Pop(t, max);
    PopSplits(t, max);
    PopMoves(t, max, r);
    RestShrinks(d, n, r.rest, d');
    if n in d.earlyTerminations && max > 0 {
      if r.rest == map[] {
        assert Outstanding(d, Mark(n)) && !Outstanding(d', Mark(n));
      } else {
        var x := PopTakes(t, max, r);
        assert Outstanding(d, Sector(n, x.0, x.1)) && !Outstanding(d', Sector(n, x.0, x.1));
      }
    }
  }

  lemma {:induction false} RestShrinks(d: Deadline, n: nat, rest: Terminations, d': Deadline)
    requires n in d.partitions && Items(rest) <= Items(d.partitions[n].earlyTerminations)
    requires rest.Keys <= d.partitions[n].earlyTerminations.Keys
    requires d' == d.(partitions := d.partitions[n := d.partitions[n].(earlyTerminations := rest)],
                      earlyTerminations := if rest != map[] then d.earlyTerminations else d.earlyTerminations - {n})
    ensures Shrinks(d, d')
  {
  }

  /** A pop that leaves something behind has taken something. */
  lemma {:induction false} PopTakes(t: Terminations, max: nat, r: Popped) returns (x: (nat, nat))
    requires r == Pop(t, max) && max > 0 && r.rest != map[]
    ensures x in Items(r.taken)
  {
    PopCounts(t, max);
    PopMovesCount(t, max, r);
    assert |Items(r.taken)| > 0;
    x :| x in Items(r.taken);
  }

  lemma {:induction false} ShrinksTrans(a: Deadline, b: Deadline, c: Deadline)
    requires Shrinks(a, b) && Shrinks(b, c)
    ensures Shrinks(a, c) && (Dropped(a, b) || Dropped(b, c) ==> Dropped(a, c))
  {
    if w :| Outstanding(a, w) && !Outstanding(b, w) { assert !Outstanding(c, w); }
    if w :| Outstanding(b, w) && !Outstanding(c, w) { assert Outstanding(a, w); }
  }

  lemma {:induction false} PopMarkedShrinks(d: Deadline, todo: set<nat>, maxPartitions: nat, maxSectors: nat,
                                            so: TerminationResult,
                                            r: (Deadline, TerminationResult))
    requires so.sectorsProcessed <= maxSectors && r == PopMarked(d, todo, maxPartitions, maxSectors, so)
    ensures Shrinks(d, r.0)
    ensures todo != {} && todo <= d.earlyTerminations && so.sectorsProcessed < maxSectors ==> Dropped(d, r.0)
    decreases todo
  {
    if todo != {} {
      var n := Least(todo);
      if n !in d.partitions {
        var d' := d.(earlyTerminations := d.earlyTerminations - {n});
        PopMarkedShrinks(d', todo - {n}, maxPartitions, maxSectors, so, r);
        assert n in d.earlyTerminations ==> Outstanding(d, Mark(n)) && !Outstanding(d', Mark(n));
        ShrinksTrans(d, d', r.0);
      } else {
        var max := maxSectors - so.sectorsProcessed;
        var result, d', so' := PopMarkedUnfold(d, n, todo, maxPartitions, maxSectors, so, r, max);
        AfterPopShrinks(d, n, max, d');
        if so'.BelowLimit(maxPartitions, maxSectors) {
          PopMarkedShrinks(d', todo - {n}, maxPartitions, maxSectors, so', r);
        }
        ShrinksTrans(d, d', r.0);
      }
    }
  }

  /** Outstanding work of a provider: that of its deadlines, and the marks on them. */
  datatype Task = In(i: nat, w: Work) | DeadlineMark(i: nat)

  ghost predicate Open(sp: Provider, t: Task) {
    match t
    case In(i, w) => i < |sp.deadlines| && Outstanding(sp.deadlines[i], w)
    case DeadlineMark(i) => i in sp.earlyTerminations
  }

  ghost predicate Fewer(sp: Provider, sp': Provider) {
    (forall t :: Open(sp', t) ==> Open(sp, t)) && exists t :: Open(sp, t) && !Open(sp', t)
  }

  lemma {:induction false} DeadlineStepShrinks(sp: Provider, i: nat, maxPartitions: nat, maxSectors: nat)
    requires i < |sp.deadlines|
    ensures var sp' := AfterDeadlinePop(sp, i, maxPartitions, maxSectors);
            && |sp'.deadlines| == |sp.deadlines| && (forall t :: Open(sp', t) ==> Open(sp, t))
            && (i in sp.earlyTerminations && maxSectors > 0 ==> Fewer(sp, sp'))
  {
    var d := sp.deadlines[i];
    var r := Deadlines.PopEarlyTerminations(d, maxPartitions, maxSectors);
    PopMarkedShrinks(d, d.earlyTerminations, maxPartitions, maxSectors, NO_TERMINATIONS, (r.0, r.1));
    var sp' := Provider(sp.deadlines[i := r.0], if r.2 then sp.earlyTerminations else sp.earlyTerminations - {i});
    assert sp' == AfterDeadlinePop(sp, i, maxPartitions, maxSectors);
    forall t | Open(sp', t) ensures Open(sp, t) {
      match t
      case In(j, w) => if j == i { assert Outstanding(r.0, w); }
      case DeadlineMark(j) =>
    }
    if i in sp.earlyTerminations && maxSectors > 0 {
      if d.earlyTerminations == {} {
        assert Open(sp, DeadlineMark(i)) && !Open(sp', DeadlineMark(i));
      } else {
        var w :| Outstanding(d, w) && !Outstanding(r.0, w);
        assert Open(sp, In(i, w)) && !Open(sp', In(i, w));
      }
    }
  }

  lemma {:induction false} FewerTrans(a: Provider, b: Provider, c: Provider)
    requires Fewer(a, b) && (forall t :: Open(c, t) ==> Open(b, t))
    ensures Fewer(a, c)
  {
    var t :| Open(a, t) && !Open(b, t);
    assert !Open(c, t);
  }

  lemma {:induction false} PopDeadlinesShrinks(sp: Provider, todo: set<nat>, maxPartitions: nat, maxSectors: nat,
                                               so: TerminationResult,
                                               r: Result<(Provider, TerminationResult), Error>)
    requires so.partitionsProcessed <= maxPartitions && so.sectorsProcessed < maxSectors
    requires r == PopDeadlines(sp, todo, maxPartitions, maxSectors, so) && r.Ok?
    ensures forall t :: Open(r.value.0, t) ==> Open(sp, t)
    ensures todo != {} && todo <= sp.earlyTerminations ==> Fewer(sp, r.value.0)
    decreases todo
  {
    if todo != {} {
      var i := Least(todo);
      var leftPartitions, leftSectors := maxPartitions - so.partitionsProcessed, maxSectors - so.sectorsProcessed;
      var result, sp', so' := PopDeadlinesUnfold(sp, i, todo, maxPartitions, maxSectors, so, r, leftPartitions,
                                                 leftSectors);
      DeadlineStepShrinks(sp, i, leftPartitions, leftSectors);
      if so'.BelowLimit(maxPartitions, maxSectors) {
        PopDeadlinesShrinks(sp', todo - {i}, maxPartitions, maxSectors, so', r);
      }
      if i in sp.earlyTerminations { FewerTrans(sp, sp', r.value.0); }
    }
  }

  /** A pop with positive limits does some of the outstanding work as long as a deadline is marked. */
  lemma {:induction false} PopMakesProgress(sp: Provider, maxPartitions: nat, maxSectors: nat)
    requires Sound(sp) && sp.earlyTerminations != {} && maxPartitions > 0 && maxSectors > 0
    ensures Providers.PopEarlyTerminations(sp, maxPartitions, maxSectors).Ok?
    ensures Fewer(sp, Providers.PopEarlyTerminations(sp, maxPartitions, maxSectors).value.0)
  {
    PopMovesItems(sp, maxPartitions, maxSectors);
    PopDeadlinesShrinks(sp, sp.earlyTerminations, maxPartitions, maxSectors, NO_TERMINATIONS,
                        Providers.PopEarlyTerminations(sp, maxPartitions, maxSectors));
  }

  // ---------- draining ----------

  /** Repeated pops: the final provider, the pairs returned and the sum of the counts reported. */
  ghost function Drain(sp: Provider, limits: seq<(nat, nat)>): (Provider, set<(nat, nat)>, nat) {
    if limits == [] then (sp, {}, 0) else
    var before := Drain(sp, limits[..|limits| - 1]);
    Drawn(before, Providers.PopEarlyTerminations(before.0, limits[|limits| - 1].0, limits[|limits| - 1].1))
  }

  ghost function Drawn(before: (Provider, set<(nat, nat)>, nat), r: Result<(Provider, TerminationResult), Error>)
      : (Provider, set<(nat, nat)>, nat) {
    if r.Err? then before
    else (r.value.0, before.1 + Items(r.value.1.sectors), before.2 + r.value.1.sectorsProcessed)
  }

  ghost predicate Positive(limits: seq<(nat, nat)>) {
    forall i :: 0 <= i < |limits| ==> limits[i].0 > 0 && limits[i].1 > 0
  }

  /** What was recorded is split between what is left and what was returned, and the count is right. */
  ghost predicate Conserved(all: set<(nat, nat)>, r: (Provider, set<(nat, nat)>, nat)) {
    Sound(r.0) && all == AllItems(r.0) + r.1 && AllItems(r.0) !! r.1 && r.2 == |r.1|
  }

  /** Any series of pops returns each recorded pair at most once and leaves exactly the others recorded. */
  lemma {:induction false} DrainConserves(sp: Provider, limits: seq<(nat, nat)>, r: (Provider, set<(nat, nat)>, nat))
    requires Sound(sp) && Positive(limits) && r == Drain(sp, limits)
    ensures Conserved(AllItems(sp), r)
  {
    if limits != [] {
      var n := |limits| - 1;
      var before := Drain(sp, limits[..n]);
      DrainConserves(sp, limits[..n], before);
      DrawConserves(AllItems(sp), before, limits[n].0, limits[n].1);
    }
  }

  lemma {:induction false} DrawConserves(all: set<(nat, nat)>, before: (Provider, set<(nat, nat)>, nat),
                                         maxPartitions: nat, maxSectors: nat)
    requires Conserved(all, before) && maxPartitions > 0 && maxSectors > 0
    ensures Conserved(all, Drawn(before, Providers.PopEarlyTerminations(before.0, maxPartitions, maxSectors)))
  {
    var popped := OnePop(before.0, maxPartitions, maxSectors);
    DrawnOnce(all, before, popped);
  }

  lemma {:induction false} DrawnOnce(all: set<(nat, nat)>, before: (Provider, set<(nat, nat)>, nat),
                                     popped: (Provider, TerminationResult))
    requires Conserved(all, before) && Sound(popped.0) && |Items(popped.1.sectors)| == popped.1.sectorsProcessed
    requires AllItems(before.0) == AllItems(popped.0) + Items(popped.1.sectors)
             && AllItems(popped.0) !! Items(popped.1.sectors)
    ensures Conserved(all, Drawn(before, Ok(popped)))
  {
    JoinDisjoint(all, AllItems(before.0), before.1, AllItems(popped.0), Items(popped.1.sectors));
  }

  lemma {:induction false} OnePop(sp: Provider, maxPartitions: nat, maxSectors: nat)
      returns (r: (Provider, TerminationResult))
    requires Sound(sp) && maxPartitions > 0 && maxSectors > 0
    ensures Providers.PopEarlyTerminations(sp, maxPartitions, maxSectors) == Ok(r)
    ensures Sound(r.0) && AllItems(sp) == AllItems(r.0) + Items(r.1.sectors) && AllItems(r.0) !! Items(r.1.sectors)
    ensures |Items(r.1.sectors)| == r.1.sectorsProcessed
    ensures sp.earlyTerminations != {} ==> Fewer(sp, r.0)
    ensures sp.earlyTerminations == {} ==> r.0 == sp
  {
    PopMovesItems(sp, maxPartitions, maxSectors);
    if sp.earlyTerminations != {} { PopMakesProgress(sp, maxPartitions, maxSectors); }
    r := Providers.PopEarlyTerminations(sp, maxPartitions, maxSectors).value;
  }

  /** All outstanding tasks of a provider; finite, because its records and marks are. */
  ghost function Tasks(sp: Provider): set<Task> {
    (set i, n, x | 0 <= i < |sp.deadlines| && n in sp.deadlines[i].partitions
        && x in Items(sp.deadlines[i].partitions[n].earlyTerminations) :: In(i, Sector(n, x.0, x.1)))
    + (set i, n, b | 0 <= i < |sp.deadlines| && n in sp.deadlines[i].partitions
        && b in sp.deadlines[i].partitions[n].earlyTerminations :: In(i, Entry(n, b)))
    + (set i, n | 0 <= i < |sp.deadlines| && n in sp.deadlines[i].earlyTerminations :: In(i, Mark(n)))
    + (set i | i in sp.earlyTerminations :: DeadlineMark(i))
  }

  ghost predicate Stock(sp: Provider, tasks: set<Task>) {
    forall t :: Open(sp, t) ==> t in tasks
  }

  lemma {:induction false} TasksStock(sp: Provider)
    ensures Stock(sp, Tasks(sp))
  {
    forall t | Open(sp, t) ensures t in Tasks(sp) {
      match t
      case In(i, w) => {
        match w
        case Sector(n, b, s) => assert (b, s) in Items(sp.deadlines[i].partitions[n].earlyTerminations);
        case Entry(n, b) =>
        case Mark(n) =>
      }
      case DeadlineMark(i) =>
    }
  }

  /** As many pops as there are outstanding tasks leave no deadline marked and nothing recorded, and
      have returned everything that was recorded, each pair once. */
  lemma {:induction false} DrainCompletes(sp: Provider, limits: seq<(nat, nat)>)
    requires Sound(sp) && Positive(limits) && |limits| >= |Tasks(sp)|
    ensures Drain(sp, limits).0.earlyTerminations == {} && AllItems(Drain(sp, limits).0) == {}
    ensures Drain(sp, limits).1 == AllItems(sp) && Drain(sp, limits).2 == |AllItems(sp)|
  {
    TasksStock(sp);
    var r := Drain(sp, limits);
    var left := StockLeft(sp, limits, Tasks(sp), r);
    DrainConserves(sp, limits, r);
    UnmarkedProvider(r.0, left);
  }

  lemma {:induction false} UnmarkedProvider(sp: Provider, left: set<Task>)
    requires Sound(sp) && Stock(sp, left) && (sp.earlyTerminations == {} || |left| == 0)
    ensures sp.earlyTerminations == {} && AllItems(sp) == {}
  {
    forall i ensures i !in sp.earlyTerminations {
      assert Open(sp, DeadlineMark(i)) <==> i in sp.earlyTerminations;
    }
    assert forall i :: 0 <= i < |sp.deadlines| ==> ItemsOf(sp, i) == {};
  }

  lemma {:induction false} StockLeft(sp: Provider, limits: seq<(nat, nat)>, tasks: set<Task>,
                                     r: (Provider, set<(nat, nat)>, nat))
      returns (left: set<Task>)
    requires Sound(sp) && Positive(limits) && Stock(sp, tasks) && r == Drain(sp, limits)
    ensures Stock(r.0, left) && (r.0.earlyTerminations == {} || |left| + |limits| <= |tasks|)
  {
    if limits == [] {
      left := tasks;
    } else {
      var n := |limits| - 1;
      var before := Drain(sp, limits[..n]);
      left := StockLeft(sp, limits[..n], tasks, before);
      DrainConserves(sp, limits[..n], before);
      var popped := OnePop(before.0, limits[n].0, limits[n].1);
      if before.0.earlyTerminations != {} { left := StockStep(before.0, popped.0, left); }
    }
  }

  lemma {:induction false} StockStep(sp: Provider, sp': Provider, tasks: set<Task>) returns (left: set<Task>)
    requires Stock(sp, tasks) && Fewer(sp, sp')
    ensures Stock(sp', left) && |left| + 1 == |tasks|
  {
    var t :| Open(sp, t) && !Open(sp', t);
    left := tasks - {t};
  }
}
