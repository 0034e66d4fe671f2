/** Where the code does less than one would expect, exactly when, and an example of each. */
module Limits {
  import opened ExpirationQueue
  import opened Partitions
  import opened Deadlines

  // ---------- a partition listed for several due blocks ----------

  lemma {:induction false} NothingDueAfter(q: Queue, until: nat)
    ensures DueOnTime(After(q, until), until) == DueEarly(After(q, until), until) == {}
    ensures After(After(q, until), until) == After(q, until)
  {
  }

  ghost predicate Emptied(p: Partition, p': Partition, until: nat, early: set<nat>) {
    && p'.expirations == After(p.expirations, until)
    && p'.earlyTerminations == p.earlyTerminations[until := early]
    && p'.terminated == p.terminated + DueOnTime(p.expirations, until) + DueEarly(p.expirations, until)
  }

  lemma {:induction false} VisitedAgain(p: Partition, p1: Partition, until: nat, early: set<nat>)
    requires Emptied(p, p1, until, early) && Partitions.PopExpiredSectors(p1, until).Ok?
    ensures Emptied(p, Partitions.PopExpiredSectors(p1, until).value.0, until, {})
  {
    NothingDueAfter(p.expirations, until);
  }

  /** Expiring a list of partitions leaves in each listed one what the last visit recorded: its early
      sectors if it is listed once, and nothing if it is listed more often. */
  lemma {:induction false} ExpireRecords(parts: map<nat, Partition>, numbers: seq<nat>, until: nat, n: nat)
    requires ExpireAll(parts, numbers, until).Ok? && n in parts
    ensures var parts' := ExpireAll(parts, numbers, until).value.partitions;
            && n in parts'
            && (multiset(numbers)[n] == 0 ==> parts'[n] == parts[n])
            && (multiset(numbers)[n] == 1
                ==> Emptied(parts[n], parts'[n], until, DueEarly(parts[n].expirations, until)))
            && (multiset(numbers)[n] > 1 ==> Emptied(parts[n], parts'[n], until, {}))
  {
    if numbers != [] {
      var init, last := numbers[..|numbers| - 1], numbers[|numbers| - 1];
      ExpireRecords(parts, init, until, n);
      assert numbers == init + [last];
      var parts1 := ExpireAll(parts, init, until).value.partitions;
      if n == last {
        assert Partitions.PopExpiredSectors(parts1[n], until).Ok?;
        if n in init { VisitedAgain(parts[n], parts1[n], until, parts1[n].earlyTerminations[until]); }
      }
    }
  }

  /** Closing a deadline keeps the early terminations of a listed partition exactly when the partition is
      listed for only one due block, or has no sector that expires early. */
  lemma {:induction false} ExpiryKeepsTerminations(d: Deadline, until: nat, n: nat)
    requires Deadlines.PopExpiredSectors(d, until).Ok? && n in d.partitions
    requires n in Listed(d.expirationsBlocks, DueBlocks(d.expirationsBlocks, until))
    ensures var d' := Deadlines.PopExpiredSectors(d, until).value.0;
            var early := DueEarly(d.partitions[n].expirations, until);
            && n in d'.partitions && until in d'.partitions[n].earlyTerminations
            && (d'.partitions[n].earlyTerminations[until] == early <==>
                  multiset(Listed(d.expirationsBlocks, DueBlocks(d.expirationsBlocks, until)))[n] == 1 || early == {})
  {
    var due := DueBlocks(d.expirationsBlocks, until);
    var numbers := Listed(d.expirationsBlocks, due);
    assert due != {};
    ExpireRecords(d.partitions, numbers, until, n);
    assert n in multiset(numbers);
  }

  /** What the partitions listed for due blocks hold early is announced. */
  lemma {:induction false} ExpireAnnounces(parts: map<nat, Partition>, numbers: seq<nat>, until: nat, n: nat)
    requires ExpireAll(parts, numbers, until).Ok? && n in parts && n in numbers
    ensures DueEarly(parts[n].expirations, until) <= ExpireAll(parts, numbers, until).value.popped.early
  {
    var init, last := numbers[..|numbers| - 1], numbers[|numbers| - 1];
    assert numbers == init + [last];
    if n in init { ExpireAnnounces(parts, init, until, n); } else { ExpireRecords(parts, init, until, n); }
  }
}

/** A partition listed for two blocks that fall due together loses its early terminations. */
module ListingLimits {
  import opened Arith
  import opened Results
  import opened ExpirationQueue
  import opened Partitions
  import opened Deadlines
  import opened DeadlineSpec
  import opened DeadlineExact
  import opened Providers
  import opened ProvingClock
  import opened EndOfBlock
  import opened PR = ProviderRun
  import opened Runs = ProvingRun
  import opened SmallRuns
  import opened Limits
  import D = Draining
  import DI = DeadlineInvariant
  import PI = PartitionInvariant
  import Parts = PartitionRun

  // ---------- two visits ----------

  lemma {:induction false} ListedTwice(early: nat, late: nat, until: nat)
    requires early < late <= until
    ensures var blocks: map<nat, nat> := map[early := 0, late := 0];
            DueBlocks(blocks, until) == {early, late} && Listed(blocks, {early, late}) == [0, 0]
  {
    var blocks: map<nat, nat> := map[early := 0, late := 0];
    LeastIs({early, late}, early);
    assert {early, late} - {early} == {late};
    LeastIs({late}, late);
    assert {late} - {late} == {};
    assert Listed(blocks, {late}) == [0] + Listed(blocks, {});
  }

  /** Visiting a partition twice terminates its early sector and leaves no record of it. */
  lemma {:induction false} VisitTwice(parts: map<nat, Partition>, block: nat, n: nat, until: nat,
                                      r: Result<Expired, Error>)
    requires 0 in parts && block <= until && PI.EarlyAt(parts[0].expirations, block, n)
    requires r == ExpireAll(parts, [0, 0], until) && r.Ok?
    ensures n in r.value.popped.early && 0 in r.value.partitions && n in r.value.partitions[0].terminated
    ensures r.value.partitions[0].earlyTerminations == parts[0].earlyTerminations[until := {}]
  {
    ExpireRecords(parts, [0, 0], until, 0);
    assert n in DueEarly(parts[0].expirations, until);
    ExpireAnnounces(parts, [0, 0], until, 0);
  }

  lemma {:induction false} TwiceReady(parts: map<nat, Partition>, infos: Infos, size: nat, marks: set<nat>,
                                      numbers: seq<nat>, until: nat)
      returns (r: Result<Expired, Error>)
    requires Shape(parts, infos, size) && Marked(parts, marks) && 0 in parts && Ready(parts[0]) && numbers == [0, 0]
    ensures r == ExpireAll(parts, numbers, until) && r.Ok?
  {
    ExpireAllExact(parts, infos, size, marks, numbers, until);
    r := ExpireAll(parts, numbers, until);
  }

  lemma {:induction false} TwoVisits(d: Deadline, infos: Infos, size: nat, a: nat, b: nat, block: nat, n: nat,
                                     until: nat)
      returns (d': Deadline, expired: ExpirationSet)
    requires Valid(d, infos, size) && a < b <= until && d.expirationsBlocks == map[a := 0, b := 0] && block <= until
    requires d.partitions.Keys == {0} && Ready(d.partitions[0]) && PI.EarlyAt(d.partitions[0].expirations, block, n)
    ensures Deadlines.PopExpiredSectors(d, until) == Ok((d', expired)) && n in expired.early
    ensures d'.partitions.Keys == {0} && n in d'.partitions[0].terminated
    ensures d'.partitions[0].earlyTerminations == d.partitions[0].earlyTerminations[until := {}]
  {
    ListedTwice(a, b, until);
    var r := TwiceReady(d.partitions, infos, size, d.earlyTerminations, [0, 0], until);
    VisitTwice(d.partitions, block, n, until, r);
    DI.ExpireKeeps(d.partitions, infos, size, d.earlyTerminations, [0, 0], until);
    ExpiryIs(d, until, {a, b}, [0, 0], r);
    d', expired := AfterExpiry(d, {a, b}, r).value.0, r.value.popped;
  }

  // ---------- a partition that is never proven ----------

  /** All its sectors are faulty and x is early at the given block. */
  ghost predicate Lost(d: Deadline, x: SectorInfo, block: nat) {
    && d.partitions.Keys == {0} && d.posted == {} && Ready(d.partitions[0])
    && d.partitions[0].sectors != {} && d.partitions[0].sectors == d.partitions[0].faults
    && d.partitions[0].earlyTerminations == map[] && PI.EarlyAt(d.partitions[0].expirations, block, x.number)
  }

  /** Missing further proofs changes nothing. */
  lemma {:induction false} StaysLost(d: Deadline, infos: Infos, x: SectorInfo, block: nat, later: nat)
    requires Lost(d, x, block)
    ensures Checked(d, infos, later) == d
  {
    var p := d.partitions[0];
    NothingNew(p, infos, later);
    MissOneIs(d, infos, 0, later, p);
    assert d.partitions[0 := p] == d.partitions;
    OneMissed(d, infos, later, d);
  }

  lemma {:induction false} NothingNew(p: Partition, infos: Infos, block: nat)
    requires p.faults == p.sectors && p.recoveries == {}
    ensures Partitions.RecordFaults(p, infos, p.sectors, block) == Ok((p, {}))
  {
    assert NewFaults(p, p.sectors) == {} && Restrict(infos, NewFaults(p, p.sectors)) == map[];
    assert p.recoveries - (p.recoveries * p.sectors * infos.Keys) == p.recoveries;
  }

  lemma {:induction false} OneMissed(d: Deadline, infos: Infos, block: nat, d': Deadline)
    requires d.partitions.Keys == {0} && d' == MissOne(d, infos, 0, block) && d'.posted == {}
    ensures Checked(d, infos, block) == d'
  {
    LeastIs({0}, 0);
    assert {0} - {0} == {};
    assert MissAll(d, infos, {0}, block) == MissAll(d', infos, {}, block);
  }

  /** A partition in which nothing has happened yet. */
  ghost predicate Untried(p: Partition) {
    p.faults == {} && p.terminated == {} && p.earlyTerminations == map[]
  }

  lemma {:induction false} PartitionLost(p: Partition, infos: Infos, n: nat, block: nat) returns (p': Partition)
    requires PI.Valid(p, infos) && Untried(p) && n in p.sectors && infos[n] > block
    ensures var r := Partitions.RecordFaults(p, infos, p.sectors, block); r.Ok? && r.value.0 == p'
    ensures Ready(p') && p'.sectors == p'.faults && p'.sectors != {} && p'.earlyTerminations == map[]
    ensures PI.EarlyAt(p'.expirations, block, n)
  {
    p' := MissedFacts(p, infos, block);
    assert p.sectors == p.Live() - p.faults;
    Parts.FaultedAt(p, infos, p.sectors, block, block, n);
  }

  /** The first missed proof makes every sector faulty, early at the fault block. */
  lemma {:induction false} LosesProof(d: Deadline, infos: Infos, x: SectorInfo, block: nat) returns (d': Deadline)
    requires d.partitions.Keys == {0} && d.posted == {} && PI.Valid(d.partitions[0], infos) && Untried(d.partitions[0])
    requires x.number in d.partitions[0].sectors && infos[x.number] > block
    ensures Checked(d, infos, block) == d' && Lost(d', x, block) && d'.expirationsBlocks == d.expirationsBlocks
  {
    var p' := PartitionLost(d.partitions[0], infos, x.number, block);
    MissOneIs(d, infos, 0, block, p');
    d' := MissOne(d, infos, 0, block);
    OneMissed(d, infos, block, d');
  }

  // ---------- the run ----------

  /** The fault block of a proof missed in the first period. */
  ghost function FaultBlock(g: Setting): nat
    requires g.Sound()
  {
    g.first + g.c.window - 1 + g.maxAge
  }

  /** Sectors x and y are registered at block now, before the first period ... */
  ghost function Registering(g: Setting, x: SectorInfo, y: SectorInfo, now: nat): seq<Event>
    requires g.registered <= now
  {
    Blocks(now - g.registered) + [Call(Register(x))] + [Call(Register(y))]
  }

  /** ... and join deadline 0. */
  ghost function Joining(g: Setting, x: SectorInfo, y: SectorInfo, now: nat): seq<Event>
    requires g.registered <= now
  {
    Registering(g, x, y, now) + [Call(Assign(0, [x]))] + [Call(Assign(0, [y]))]
  }

  lemma {:induction false} Registered(g: Setting, x: SectorInfo, y: SectorInfo, infos: Infos, now: nat)
      returns (s: State)
    requires g.Sound() && g.registered <= now < g.first && x.number != y.number
    requires infos == map[x.number := x.expiration][y.number := y.expiration]
    ensures s == AtBlock(g, infos, FRESH_DEADLINE, now) && Picks(g, s, 0)
    ensures Runs.Run(g, Registering(g, x, y, now)) == s
  {
    var s0 := Waited(g, now);
    var s1 := RegisterStep(g, map[], FRESH_DEADLINE, now, x, map[x.number := x.expiration], s0);
    s := RegisterStep(g, map[x.number := x.expiration], FRESH_DEADLINE, now, y, infos, s1);
    RunSnoc(g, Blocks(now - g.registered), Call(Register(x)), s0, s1);
    RunSnoc(g, Blocks(now - g.registered) + [Call(Register(x))], Call(Register(y)), s1, s);
    EarlyClock(g, now);
    PicksFirst(g, infos, FRESH_DEADLINE, now, s);
  }

  lemma {:induction false} FirstJoined(g: Setting, x: SectorInfo, y: SectorInfo, infos: Infos, now: nat)
      returns (d: Deadline, s: State)
    requires g.Sound() && g.size >= 2 && g.registered <= now < g.first && x.number != y.number
    requires infos == map[x.number := x.expiration][y.number := y.expiration]
    ensures d == Deadline(map[0 := OneSector(x, {x.number})], map[x.expiration := 0], {}, {}, 1, 1)
    ensures s == AtBlock(g, infos, d, now) && Picks(g, s, 0)
    ensures Runs.Run(g, Registering(g, x, y, now) + [Call(Assign(0, [x]))]) == s
  {
    d := AddFirst(g.size, x);
    var s1 := Registered(g, x, y, infos, now);
    s := AssignStep(g, infos, FRESH_DEADLINE, now, x, d, s1);
    RunSnoc(g, Registering(g, x, y, now), Call(Assign(0, [x])), s1, s);
    EarlyClock(g, now);
    PicksFirst(g, infos, d, now, s);
  }

  lemma {:induction false} SecondAdded(size: nat, x: SectorInfo, y: SectorInfo, d: Deadline) returns (d': Deadline)
    requires size >= 2 && x.number != y.number && x.expiration != y.expiration
    requires d == Deadline(map[0 := OneSector(x, {x.number})], map[x.expiration := 0], {}, {}, 1, 1)
    ensures d.partitions.Keys <= {0} && y.number !in PartitionAt(d.partitions, 0).sectors
    ensures Deadlines.AddSectors(d, size, [y]) == Ok(d')
    ensures d'.partitions.Keys == {0} && d'.posted == {} && Untried(d'.partitions[0])
            && x.number in d'.partitions[0].sectors
    ensures d'.expirationsBlocks == map[x.expiration := 0, y.expiration := 0]
  {
    d' := AddSecond(size, x, y, d, {x.number});
  }

  lemma {:induction false} JoinSecond(g: Setting, x: SectorInfo, y: SectorInfo, infos: Infos, d: Deadline, now: nat,
                                      s: State)
      returns (d': Deadline, s': State)
    requires g.Sound() && g.size >= 2 && now < g.first && x.number != y.number && x.expiration != y.expiration
    requires d == Deadline(map[0 := OneSector(x, {x.number})], map[x.expiration := 0], {}, {}, 1, 1)
    requires y.number in infos && infos[y.number] == y.expiration && s == AtBlock(g, infos, d, now)
    ensures d'.partitions.Keys == {0} && d'.posted == {} && Untried(d'.partitions[0])
            && x.number in d'.partitions[0].sectors
    ensures d'.expirationsBlocks == map[x.expiration := 0, y.expiration := 0]
    ensures s' == AtBlock(g, infos, d', now) && Runs.Step(g, s, Call(Assign(0, [y]))) == s'
  {
    d' := SecondAdded(g.size, x, y, d);
    s' := AssignStep(g, infos, d, now, y, d', s);
  }

  lemma {:induction false} Joined(g: Setting, x: SectorInfo, y: SectorInfo, infos: Infos, now: nat)
      returns (d: Deadline, s: State)
    requires g.Sound() && g.size >= 2 && g.registered <= now < g.first && x.number != y.number
             && x.expiration != y.expiration
    requires infos == map[x.number := x.expiration][y.number := y.expiration]
    ensures d.partitions.Keys == {0} && d.posted == {} && Untried(d.partitions[0])
            && x.number in d.partitions[0].sectors
    ensures d.expirationsBlocks == map[x.expiration := 0, y.expiration := 0]
    ensures s == AtBlock(g, infos, d, now) && Runs.Run(g, Joining(g, x, y, now)) == s
  {
    var d1, s1 := FirstJoined(g, x, y, infos, now);
    d, s := JoinSecond(g, x, y, infos, d1, now, s1);
    RunSnoc(g, Registering(g, x, y, now) + [Call(Assign(0, [x]))], Call(Assign(0, [y])), s1, s);
  }

  /** In a run the deadline is valid. */
  lemma {:induction false} RunValid(g: Setting, events: seq<Event>, infos: Infos, d: Deadline, now: nat)
    requires g.Sound() && Runs.Run(g, events) == AtBlock(g, infos, d, now)
    ensures Valid(d, infos, g.size)
  {
    RunGood(g, events);
    assert AtBlock(g, infos, d, now).w.sp.deadlines[0] == d;
  }

  /** The deadline before and after the first missed proof is found. */
  ghost function InBlock(g: Setting, d: Deadline, d': Deadline, b: nat): Deadline {
    if b <= ClosingAt(g, 0) then d else d'
  }

  /** A deadline that closes before block b has closed by the last closing block before it. */
  lemma {:induction false} ClosedBefore(g: Setting, m: nat, b: nat)
    requires g.Sound() && m > 0 && ClosesFirst(g, b) && b < ClosingAt(g, m)
    ensures ClosingAt(g, 0) <= b <= ClosingAt(g, m - 1)
  {
    if b < ClosingAt(g, 0) {
      NotClosedYet(g, b);
    } else if b > ClosingAt(g, m - 1) {
      ClosingIsAt(g, m);
      ClosingIsAt(g, m - 1);
      NotClosedAgain(g, m - 1, b);
    }
  }

  /** A block ends before both are due. */
  lemma {:induction false} LostBlock(g: Setting, infos: Infos, d: Deadline, d': Deadline, x: SectorInfo, m: nat,
                                     b: nat, next: nat, s: State)
      returns (s': State)
    requires g.Sound() && m > 0 && g.registered <= b < ClosingAt(g, m) && next == b + 1
    requires d' == Checked(d, infos, FaultBlock(g)) && Lost(d', x, FaultBlock(g)) && DueFrom(g, d', m)
    requires s == AtBlock(g, infos, InBlock(g, d, d', b), b)
    ensures s' == AtBlock(g, infos, InBlock(g, d, d', next), next) && Runs.Step(g, s, EndBlock) == s'
  {
    if ClosesFirst(g, b) {
      ClosedBefore(g, m, b);
      StaysLost(d', infos, x, FaultBlock(g), b - 1 + g.maxAge);
    } else if b == ClosingAt(g, 0) {
      ClosesThen(g, 0, b);
    }
    BlockEnds(g, infos, InBlock(g, d, d', b), InBlock(g, d, d', next), b);
    s' := Runs.Step(g, s, EndBlock);
  }

  /** Blocks pass without a proof. */
  lemma {:induction false} NeverProven(g: Setting, infos: Infos, d: Deadline, d': Deadline, x: SectorInfo, m: nat,
                                       now: nat, until: nat,
                                       s: State)
      returns (s': State)
    requires g.Sound() && m > 0 && g.registered <= now <= until <= ClosingAt(g, m)
    requires d' == Checked(d, infos, FaultBlock(g)) && Lost(d', x, FaultBlock(g)) && DueFrom(g, d', m)
    requires s == AtBlock(g, infos, InBlock(g, d, d', now), now)
    ensures s' == AtBlock(g, infos, InBlock(g, d, d', until), until) && From(g, s, Blocks(until - now)) == s'
    decreases until
  {
    if now == until {
      s' := s;
    } else {
      var s1 := NeverProven(g, infos, d, d', x, m, now, until - 1, s);
      s' := LostBlock(g, infos, d, d', x, m, until - 1, until, s1);
      OneMoreBlock(g, s, until - now, s1, s');
    }
  }

  /** From a block before the first period up to the closing block of a later one. */
  lemma {:induction false} NeverProvenAtAll(g: Setting, infos: Infos, d: Deadline, d': Deadline, x: SectorInfo, m: nat,
                                            now: nat,
                                            closing: nat, s: State)
      returns (s': State)
    requires g.Sound() && m > 0 && g.registered <= now < g.first && closing == ClosingAt(g, m)
             && s == AtBlock(g, infos, d, now)
    requires d' == Checked(d, infos, FaultBlock(g)) && Lost(d', x, FaultBlock(g)) && DueFrom(g, d', m)
    ensures s' == AtBlock(g, infos, d', closing) && From(g, s, Blocks(closing - now)) == s'
  {
    assert InBlock(g, d, d', now) == d && InBlock(g, d, d', closing) == d';
    s' := NeverProven(g, infos, d, d', x, m, now, closing, s);
  }

  // ---------- the result ----------

  /** Nobody proves; the blocks pass up to the one at which both sectors are due. */
  ghost function Script(g: Setting, x: SectorInfo, y: SectorInfo, now: nat, closing: nat): seq<Event>
    requires g.registered <= now <= closing
  {
    Joining(g, x, y, now) + Blocks(closing - now)
  }

  lemma {:induction false} BothDue(g: Setting, d: Deadline, early: nat, late: nat, m: nat)
    requires g.Sound() && d.expirationsBlocks == map[early := 0, late := 0] && FaultBlock(g) < early
    requires m == DuePeriod(g, early) == DuePeriod(g, late)
    ensures DueFrom(g, d, m) && m > 0 && early < ClosingAt(g, m) && late < ClosingAt(g, m)
    ensures forall b :: b in d.expirationsBlocks ==> b >= ClosingAt(g, 0)
  {
    DueWhen(g, early, m);
    DueWhen(g, late, m);
  }

  lemma {:induction false} Reached(g: Setting, x: SectorInfo, y: SectorInfo, infos: Infos, now: nat, m: nat,
                                   closing: nat)
      returns (d: Deadline, s: State)
    requires g.Sound() && g.c.deadlines >= 2 && g.size >= 2 && g.registered <= now < g.first
             && closing == ClosingAt(g, m)
    requires x.number != y.number && FaultBlock(g) < x.expiration < y.expiration
    requires m == DuePeriod(g, x.expiration) == DuePeriod(g, y.expiration)
    requires infos == map[x.number := x.expiration][y.number := y.expiration]
    ensures Lost(d, x, FaultBlock(g)) && d.expirationsBlocks == map[x.expiration := 0, y.expiration := 0]
    ensures s == AtBlock(g, infos, d, closing) && Runs.Run(g, Script(g, x, y, now, closing)) == s
  {
    var d0, s0;
    d0, d, s0 := JoinedLost(g, x, y, infos, now);
    BothDue(g, d, x.expiration, y.expiration, m);
    s := NeverProvenAtAll(g, infos, d0, d, x, m, now, closing, s0);
    RunThen(g, Joining(g, x, y, now), s0, Blocks(closing - now), s);
  }

  lemma {:induction false} JoinedLost(g: Setting, x: SectorInfo, y: SectorInfo, infos: Infos, now: nat)
      returns (d: Deadline, d': Deadline, s: State)
    requires g.Sound() && g.size >= 2 && g.registered <= now < g.first
    requires x.number != y.number && FaultBlock(g) < x.expiration < y.expiration
    requires infos == map[x.number := x.expiration][y.number := y.expiration]
    ensures d' == Checked(d, infos, FaultBlock(g)) && Lost(d', x, FaultBlock(g))
    ensures d'.expirationsBlocks == map[x.expiration := 0, y.expiration := 0]
    ensures s == AtBlock(g, infos, d, now) && Runs.Run(g, Joining(g, x, y, now)) == s
  {
    d, s := Joined(g, x, y, infos, now);
    RunValid(g, Joining(g, x, y, now), infos, d, now);
    assert PI.Valid(d.partitions[0], infos);
    d' := LosesProof(d, infos, x, FaultBlock(g));
  }

  /** What closing the deadline makes of it ... */
  lemma {:induction false} LostVisits(d: Deadline, infos: Infos, size: nat, x: SectorInfo, a: nat, b: nat, block: nat,
                                      last: nat)
      returns (d': Deadline, expired: ExpirationSet)
    requires Valid(d, infos, size) && Lost(d, x, block) && block <= last
    requires a < b <= last && d.expirationsBlocks == map[a := 0, b := 0]
    ensures Deadlines.PopExpiredSectors(d, last) == Ok((d', expired)) && expired.early != {}
    ensures d'.partitions.Keys == {0} && x.number in d'.partitions[0].terminated
    ensures d'.partitions[0].earlyTerminations == map[last := {}]
  {
    d', expired := TwoVisits(d, infos, size, a, b, block, x.number, last);
    assert d.partitions[0].earlyTerminations[last := {}] == map[last := {}];
  }

  /** ... and of the provider. */
  lemma {:induction false} ClosesForgetting(w: World, d: Deadline, x: SectorInfo, block: nat, last: nat, maxAge: nat,
                                            d': Deadline, expired: ExpirationSet)
      returns (w': World)
    requires |w.sp.deadlines| > 0 && w.sp.deadlines[0] == d && Lost(d, x, block)
    requires Deadlines.PopExpiredSectors(d, last) == Ok((d', expired)) && expired.early != {}
    requires d'.partitions.Keys == {0} && d'.partitions[0].earlyTerminations == map[last := {}]
    requires forall i :: 0 < i < |w.sp.deadlines| ==> w.sp.deadlines[i] == FRESH_DEADLINE
    ensures CloseCurrent(w, 0, last, maxAge) == Ok(w') && |w'.sp.deadlines| > 0 && w'.sp.deadlines[0] == d'
    ensures 0 in w'.sp.earlyTerminations && D.AllItems(w'.sp) == {}
  {
    w' := LostCloses(w, d, x, block, last, maxAge, d', expired);
    NothingOnRecord(w'.sp, last);
  }

  lemma {:induction false} LostCloses(w: World, d: Deadline, x: SectorInfo, block: nat, last: nat, maxAge: nat,
                                      d': Deadline, expired: ExpirationSet)
      returns (w': World)
    requires |w.sp.deadlines| > 0 && w.sp.deadlines[0] == d && Lost(d, x, block) && expired.early != {}
    requires Deadlines.PopExpiredSectors(d, last) == Ok((d', expired))
    ensures CloseCurrent(w, 0, last, maxAge) == Ok(w')
    ensures w' == w.(sp := Provider(w.sp.deadlines[0 := d'], w.sp.earlyTerminations + {0}))
  {
    var checked := Checked(w.sp.deadlines[0], w.infos, last + maxAge);
    StaysLost(d, w.infos, x, block, last + maxAge);
    w' := ClosedAs(w, checked, last, maxAge, d', expired);
  }

  lemma {:induction false} ClosedAs(w: World, d: Deadline, last: nat, maxAge: nat, d': Deadline, expired: ExpirationSet)
      returns (w': World)
    requires |w.sp.deadlines| > 0 && d == Checked(w.sp.deadlines[0], w.infos, last + maxAge) && expired.early != {}
    requires w.sp.deadlines[0] == d && Deadlines.PopExpiredSectors(d, last) == Ok((d', expired))
    ensures CloseCurrent(w, 0, last, maxAge) == Ok(w')
    ensures w' == w.(sp := Provider(w.sp.deadlines[0 := d'], w.sp.earlyTerminations + {0}))
  {
    var sp' := CloseIs(w.sp, 0, last, d', expired);
    assert w.sp.deadlines[0 := d] == w.sp.deadlines;
    ClosesAs(w, 0, last, maxAge, d, w.sp, Ok((sp', expired)));
    w' := w.(sp := sp');
  }

  lemma {:induction false} NothingOnRecord(sp: Provider, last: nat)
    requires |sp.deadlines| > 0 && sp.deadlines[0].partitions.Keys == {0}
    requires sp.deadlines[0].partitions[0].earlyTerminations == map[last := {}]
    requires forall i :: 0 < i < |sp.deadlines| ==> sp.deadlines[i] == FRESH_DEADLINE
    ensures D.AllItems(sp) == {}
  {
    forall i | 0 <= i < |sp.deadlines| ensures D.ItemsOf(sp, i) == {} {
      if i > 0 { assert sp.deadlines[i] == FRESH_DEADLINE; }
    }
  }

  lemma {:induction false} ClosesFirstLast(g: Setting, m: nat, s: State, now: nat) returns (last: nat)
    requires g.Sound() && s.Running? && s.now == now == ClosingAt(g, m)
             && s.clock == Before(g.c, g.first, g.registered, now)
    ensures s.Timed(g.c) && Closes(g.c, s.clock, now) && s.clock.deadline == 0
    ensures last == Current(g.c, s.clock, now).Last() && last + 1 == now
  {
    ClosesThen(g, m, now);
    ClosesOnTime(g.c, g.first, g.registered, now);
    last := Current(g.c, s.clock, now).Last();
  }

  /** Both go where the pallet assigns them. */
  lemma {:induction false} JoinsPicked(g: Setting, x: SectorInfo, y: SectorInfo, now: nat)
    requires g.Sound() && g.size >= 2 && g.registered <= now < g.first && x.number != y.number
    ensures var s := Runs.Run(g, Registering(g, x, y, now)); s.Running? && Picks(g, s, 0)
    ensures var s := Runs.Run(g, Registering(g, x, y, now) + [Call(Assign(0, [x]))]); s.Running? && Picks(g, s, 0)
  {
    var infos: Infos := map[x.number := x.expiration][y.number := y.expiration];
    var s := Registered(g, x, y, infos, now);
    var d, s' := FirstJoined(g, x, y, infos, now);
  }

  /** Whatever the sectors: if two of them that outlive the fault block of the first period fall due together and
      are never proven, the end of that block terminates them early and marks their deadline, but the provider has
      no early termination on record. */
  lemma {:induction false} DoublyListedForgets(g: Setting, x: SectorInfo, y: SectorInfo, now: nat)
    requires g.Sound() && g.c.deadlines >= 2 && g.size >= 2 && g.registered <= now < g.first
    requires x.number != y.number && FaultBlock(g) < x.expiration < y.expiration
    requires DuePeriod(g, x.expiration) == DuePeriod(g, y.expiration)
    ensures var s := Runs.Run(g, Script(g, x, y, now, ClosingAt(g, DuePeriod(g, x.expiration))) + [EndBlock]);
            && s.Running? && 0 in s.w.sp.earlyTerminations && D.AllItems(s.w.sp) == {}
            && |s.w.sp.deadlines| > 0 && 0 in s.w.sp.deadlines[0].partitions
            && x.number in s.w.sp.deadlines[0].partitions[0].terminated
  {
    var m, infos: Infos := DuePeriod(g, x.expiration), map[x.number := x.expiration][y.number := y.expiration];
    var closing := ClosingAt(g, m);
    var d, s := Reached(g, x, y, infos, now, m, closing);
    RunValid(g, Script(g, x, y, now, closing), infos, d, closing);
    var last, d', expired := DueVisits(g, infos, d, x, y, m, closing, s);
    OnlyFirst(g, infos, d, closing, s);
    var s' := EndsForgetting(g, d, x, FaultBlock(g), s, last, d', expired);
    RunSnoc(g, Script(g, x, y, now, closing), EndBlock, s, s');
  }

  lemma {:induction false} DueVisits(g: Setting, infos: Infos, d: Deadline, x: SectorInfo, y: SectorInfo, m: nat,
                                     closing: nat, s: State)
      returns (last: nat, d': Deadline, expired: ExpirationSet)
    requires g.Sound() && closing == ClosingAt(g, m) && s == AtBlock(g, infos, d, closing) && Valid(d, infos, g.size)
    requires Lost(d, x, FaultBlock(g)) && d.expirationsBlocks == map[x.expiration := 0, y.expiration := 0]
    requires FaultBlock(g) < x.expiration < y.expiration
             && m == DuePeriod(g, x.expiration) == DuePeriod(g, y.expiration)
    ensures Closes(g.c, s.clock, closing) && s.clock.deadline == 0 && last == Current(g.c, s.clock, closing).Last()
    ensures Deadlines.PopExpiredSectors(d, last) == Ok((d', expired)) && expired.early != {}
    ensures d'.partitions.Keys == {0} && x.number in d'.partitions[0].terminated
    ensures d'.partitions[0].earlyTerminations == map[last := {}]
  {
    BothDue(g, d, x.expiration, y.expiration, m);
    last := ClosesFirstLast(g, m, s, closing);
    d', expired := LostVisits(d, infos, g.size, x, x.expiration, y.expiration, FaultBlock(g), last);
  }

  lemma {:induction false} EndsForgetting(g: Setting, d: Deadline, x: SectorInfo, block: nat, s: State, last: nat,
                                          d': Deadline, expired: ExpirationSet)
      returns (s': State)
    requires g.Sound() && s.Running? && s.Timed(g.c) && s.clock.deadline == 0
    requires Closes(g.c, s.clock, s.now) && last == Current(g.c, s.clock, s.now).Last()
    requires |s.w.sp.deadlines| > 0 && s.w.sp.deadlines[0] == d && Lost(d, x, block)
    requires Deadlines.PopExpiredSectors(d, last) == Ok((d', expired)) && expired.early != {}
    requires d'.partitions.Keys == {0} && d'.partitions[0].earlyTerminations == map[last := {}]
    requires forall i :: 0 < i < |s.w.sp.deadlines| ==> s.w.sp.deadlines[i] == FRESH_DEADLINE
    ensures s' == Runs.Step(g, s, EndBlock) && s'.Running? && |s'.w.sp.deadlines| > 0 && s'.w.sp.deadlines[0] == d'
    ensures 0 in s'.w.sp.earlyTerminations && D.AllItems(s'.w.sp) == {}
  {
    var w' := ClosesForgetting(s.w, d, x, block, last, g.maxAge, d', expired);
    s' := Running(w', Advance(g.c, s.clock), s.now + 1);
    ClosingIs(g, s, last, Ok(w'));
  }

  lemma {:induction false} OnlyFirst(g: Setting, infos: Infos, d: Deadline, now: nat, s: State)
    requires g.Sound() && s == AtBlock(g, infos, d, now)
    ensures s.w.infos == infos && |s.w.sp.deadlines| > 0 && s.w.sp.deadlines[0] == d
    ensures forall i :: 0 < i < |s.w.sp.deadlines| ==> s.w.sp.deadlines[i] == FRESH_DEADLINE
  {
  }
}

/** A sector accepted into a deadline during its closing block makes the end of that block panic. */
module ClosingLimits {
  import opened Results
  import opened ExpirationQueue
  import opened Deadlines
  import opened ProvingClock
  import opened PR = ProviderRun
  import opened Runs = ProvingRun
  import opened SmallRuns

  /** Sector x joins deadline 0 at block now, before the first period, and is proven in every period, t blocks
      after the deadline opens, up to the block at which the deadline closes and x is due. */
  ghost function UntilDue(g: Setting, x: SectorInfo, now: nat, t: nat): seq<Event>
    requires g.Sound() && g.registered <= now < g.first && t < g.c.window
  {
    Blocks(now - g.registered) + [Call(Register(x))] + [Call(Assign(0, [x]))]
    + Proving(g, now, t, DuePeriod(g, x.expiration))
  }

  lemma {:induction false} Registered(g: Setting, x: SectorInfo, infos: Infos, now: nat) returns (s: State)
    requires g.Sound() && g.registered <= now < g.first && infos == map[x.number := x.expiration]
    ensures s == AtBlock(g, infos, FRESH_DEADLINE, now) && Picks(g, s, 0)
    ensures Runs.Run(g, Blocks(now - g.registered) + [Call(Register(x))]) == s
  {
    var s0 := Waited(g, now);
    s := RegisterStep(g, map[], FRESH_DEADLINE, now, x, infos, s0);
    RunSnoc(g, Blocks(now - g.registered), Call(Register(x)), s0, s);
    EarlyClock(g, now);
    PicksFirst(g, infos, FRESH_DEADLINE, now, s);
  }

  lemma {:induction false} Joined(g: Setting, x: SectorInfo, infos: Infos, now: nat) returns (d: Deadline, s: State)
    requires g.Sound() && g.registered <= now < g.first && infos == map[x.number := x.expiration]
    ensures d == Deadline(map[0 := OneSector(x, {x.number})], map[x.expiration := 0], {}, {}, 1, 1)
    ensures s == AtBlock(g, infos, d, now)
    ensures Runs.Run(g, Blocks(now - g.registered) + [Call(Register(x))] + [Call(Assign(0, [x]))]) == s
  {
    d := AddFirst(g.size, x);
    var s1 := Registered(g, x, infos, now);
    s := AssignStep(g, infos, FRESH_DEADLINE, now, x, d, s1);
    RunSnoc(g, Blocks(now - g.registered) + [Call(Register(x))], Call(Assign(0, [x])), s1, s);
  }

  /** Once x is proven. */
  lemma {:induction false} Proven(x: SectorInfo, infos: Infos, d: Deadline) returns (d': Deadline)
    requires d == Deadline(map[0 := OneSector(x, {x.number})], map[x.expiration := 0], {}, {}, 1, 1)
    ensures RecoveriesKnown(d, infos) && RecordProven(d, infos, [0]) == Ok(d')
    ensures d'.partitions == map[0 := OneSector(x, {})] && d'.expirationsBlocks == map[x.expiration := 0]
    ensures Settled(d') && d'.liveSectors == d'.totalSectors == 1
  {
    d' := ProveFirst(d, infos, OneSector(x, {x.number}));
  }

  lemma {:induction false} Reached(g: Setting, x: SectorInfo, infos: Infos, now: nat, t: nat, m: nat)
      returns (d: Deadline, s: State)
    requires g.Sound() && g.c.deadlines >= 2 && g.registered <= now < g.first && infos == map[x.number := x.expiration]
    requires m == DuePeriod(g, x.expiration) && Opens(g, m, t)
    ensures Settled(d) && d.partitions == map[0 := OneSector(x, {})] && d.expirationsBlocks == map[x.expiration := 0]
    ensures d.liveSectors == d.totalSectors == 1
    ensures s == AtBlock(g, infos, d, ClosingAt(g, m)) && Runs.Run(g, UntilDue(g, x, now, t)) == s
  {
    var d1, s1 := Joined(g, x, infos, now);
    d := Proven(x, infos, d1);
    DueWhen(g, x.expiration, m);
    s := ProvenUntil(g, infos, d1, d, now, t, m, g.first + t, StartOf(g.c, g.first, m) + t, ClosingAt(g, m), s1);
    RunThen(g, Blocks(now - g.registered) + [Call(Register(x))] + [Call(Assign(0, [x]))], s1, Proving(g, now, t, m), s);
  }

  /** At the closing block the deadline takes y, and the pallet assigns y to it. */
  lemma {:induction false} ClosingPicks(g: Setting, infos: Infos, d: Deadline, m: nat, now: nat, s: State)
    requires g.Sound() && g.c.deadlines >= 3 && g.size >= 2 && now == ClosingAt(g, m)
    requires s == AtBlock(g, infos, d, now) && d.liveSectors == d.totalSectors == 1
    ensures Picks(g, s, 0)
  {
    ClosesThen(g, m, now);
    ClosingTakesSectors(g, s, []);
    PicksFirst(g, infos, d, now, s);
  }

  lemma {:induction false} DueAndOpen(g: Setting, x: SectorInfo, y: SectorInfo, infos: Infos, m: nat, d: Deadline,
                                      s: State, now: nat)
    requires g.Sound() && g.size >= 2 && x.number != y.number && m == DuePeriod(g, x.expiration)
             && now == ClosingAt(g, m)
    requires Settled(d) && d.partitions == map[0 := OneSector(x, {})] && d.expirationsBlocks == map[x.expiration := 0]
    requires y.number in infos && infos[y.number] == y.expiration && s == AtBlock(g, infos, d, now)
    ensures Closes(g.c, s.clock, s.now) && s.clock.deadline == 0 && PR.Unassigned(s.w, [y])
    ensures OpenWhenDue(d, g.size, Current(g.c, s.clock, s.now).Last(), 1)
  {
    ClosesThen(g, m, now);
    ClosesOnTime(g.c, g.first, g.registered, now);
    UnassignedOne(s.w, y);
    DueWhen(g, x.expiration, m);
    FirstPartition(d.partitions);
    assert d.expirationsBlocks[x.expiration] == 0;
  }

  /** Whatever the sectors and their expirations: if x has joined and is proven in every period, then assigning y
      to the same deadline in the block at which the deadline closes and x is due makes the end of that block panic. */
  lemma {:induction false} ClosingPanics(g: Setting, x: SectorInfo, y: SectorInfo, now: nat, t: nat)
    requires g.Sound() && g.c.deadlines >= 3 && g.size >= 2 && g.registered <= now < g.first
    requires x.number != y.number && Opens(g, DuePeriod(g, x.expiration), t)
    ensures var s := Runs.Run(g, Blocks(now - g.registered) + [Call(Register(x))]); s.Running? && Picks(g, s, 0)
    ensures var s := Runs.Run(g, UntilDue(g, x, now, t) + [Call(Register(y))]);
            s.Running? && Picks(g, s, 0) && From(g, s, [Call(Assign(0, [y])), EndBlock]).Panicked?
  {
    var m, infos: Infos := DuePeriod(g, x.expiration), map[x.number := x.expiration];
    var d, s := Reached(g, x, infos, now, t, m);
    var s1 := RegisterStep(g, infos, d, ClosingAt(g, m), y, infos[y.number := y.expiration], s);
    RunSnoc(g, UntilDue(g, x, now, t), Call(Register(y)), s, s1);
    DueAndOpen(g, x, y, infos[y.number := y.expiration], m, d, s1, ClosingAt(g, m));
    AssignPanics(g, UntilDue(g, x, now, t) + [Call(Register(y))], [y]);
    ClosingPicks(g, infos[y.number := y.expiration], d, m, ClosingAt(g, m), s1);
    var s0 := Registered(g, x, infos, now);
  }

  /** The constants of the pallet's tests, of the test network and of the main runtime. */
  predicate Configured(c: Config) {
    || c == Config(10, 4, 40, 1, 2)
    || c == Config(3, 20, 60, 10, 10)
    || c == Config(48, 300, 14400, 100, 225)
  }

  /** With each of them this happens one block after the deadline opens, for every expiration of x. */
  lemma {:induction false} ConfigurationsPanic(g: Setting, x: SectorInfo, y: SectorInfo, now: nat)
    requires Configured(g.c) && g.size == 2 && g.c.period <= g.first && g.registered <= now < g.first
             && x.number != y.number
    ensures g.Sound() && 1 < g.c.window
    ensures var s := Runs.Run(g, UntilDue(g, x, now, 1) + [Call(Register(y))]);
            s.Running? && Picks(g, s, 0) && From(g, s, [Call(Assign(0, [y])), EndBlock]).Panicked?
  {
    ClosingPanics(g, x, y, now, 1);
  }
}

/** The size check adds up raw sizes, but pieces are aligned: the tree can outgrow the sector. */
module SizeLimits {
  import opened Arith
  import opened Layout
  import opened Commd
  import opened PieceSize
  import opened Sealer

  lemma {:induction false} SmallSizes()
    ensures IsPadded(128) && IsPadded(256) && IsPadded(1024)
  {
    PowerIsPadded(0);
    PowerIsPadded(1);
    PowerIsPadded(3);
    assert Pow2(1) == 2 && Pow2(3) == 8;
  }

  lemma {:induction false} Pushed<C>(pieces: seq<PieceInfo<C>>, p: PieceInfo<C>)
    requires ValidPieces(pieces) && IsPadded(p.size)
    ensures ValidPieces(pieces + [p]) && SizeSum(pieces + [p]) == SizeSum(pieces) + p.size
    ensures End(pieces + [p]) == AlignUp(End(pieces), p.size) + p.size
  {
    SumPush(pieces, p);
    assert (pieces + [p])[..|pieces|] == pieces;
  }

  /** The reduction stays within the sector exactly when the aligned layout does. */
  lemma {:induction false} FitsExactly<C>(h: Hasher<C>, sector: SectorSize, pieces: seq<PieceInfo<C>>)
    requires Consistent(h) && pieces != [] && ValidPieces(pieces) && SizeSum(pieces) <= sector.Bytes()
    ensures Tabled(sector.Bytes()) && End(pieces) <= TABLE_MAX
    ensures ReducePieces(h, sector.Bytes(), pieces).size == sector.Bytes() <==> End(pieces) <= sector.Bytes()
  {
    ReductionSize(h, sector, pieces);
  }

  lemma {:induction false} TwoPieces<C>(a: PieceInfo<C>, b: PieceInfo<C>)
    requires IsPadded(a.size) && IsPadded(b.size) && a.size <= b.size
    ensures ValidPieces([a, b]) && SizeSum([a, b]) == a.size + b.size && End([a, b]) == AlignUp(a.size, b.size) + b.size
  {
    FirstPiece(a);
    Pushed([a], b);
    assert [a] + [b] == [a, b];
  }

  lemma {:induction false} FirstPiece<C>(a: PieceInfo<C>)
    requires IsPadded(a.size)
    ensures ValidPieces([a]) && SizeSum([a]) == End([a]) == a.size
  {
    assert [a][..0] == [];
    SumPush([], a);
    assert [] + [a] == [a];
    AlignZero(a.size);
  }

  lemma {:induction false} AlignZero(size: nat)
    requires size > 0
    ensures AlignUp(0, size) == 0
  {
    DivBy(0, 0, size, 0);
  }

  /** Pieces of 128, 1024 and 128 bytes pass the check for a 2 KiB sector and need a tree of 4 KiB. */
  lemma {:induction false} RawSizesMislead<C>(h: Hasher<C>, a: C, b: C, c: C)
    requires Consistent(h)
    ensures var pieces := [PieceInfo(a, 128), PieceInfo(b, 1024), PieceInfo(c, 128)];
            && ValidPieces(pieces) && EnsurePieceSizes(S2KiB, pieces).Ok?
            && Tabled(2048) && End(pieces) <= TABLE_MAX && ReducePieces(h, 2048, pieces).size == 4096
  {
    var pieces := [PieceInfo(a, 128), PieceInfo(b, 1024), PieceInfo(c, 128)];
    SmallSizes();
    TwoPieces(PieceInfo(a, 128), PieceInfo(b, 1024));
    Pushed([PieceInfo(a, 128), PieceInfo(b, 1024)], PieceInfo(c, 128));
    assert [PieceInfo(a, 128), PieceInfo(b, 1024)] + [PieceInfo(c, 128)] == pieces;
    assert End(pieces) == 2176 && SizeSum(pieces) == 1280;
    SizeCheckSuffices(S2KiB, pieces);
    ReductionSize(h, S2KiB, pieces);
  }

  /** After pieces of 128 and 256 bytes, fillers for what their raw sizes leave of 2 KiB run over its end. */
  lemma {:induction false} RawRestMisleads<C>(h: Hasher<C>, a: C, b: C)
    requires Consistent(h)
    ensures var pieces := [PieceInfo(a, 128), PieceInfo(b, 256)];
            && ValidPieces(pieces) && SizeSum(pieces) == 384 && (2048 - SizeSum(pieces)) % 128 == 0
            && var filled := pieces + Fillers(h, 2048 - SizeSum(pieces)); ValidPieces(filled) && End(filled) > 2048
  {
    SmallSizes();
    PowerIsPadded(4);
    assert Pow2(4) == 16;
    TwoPieces(PieceInfo(a, 128), PieceInfo(b, 256));
    var pieces := [PieceInfo(a, 128), PieceInfo(b, 256)];
    FillsExactly(h, pieces, 2048, SizeSum(pieces));
  }
}
