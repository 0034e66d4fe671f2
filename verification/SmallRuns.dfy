/** Runs of a provider that keeps one partition in its first deadline and proves it in every period. */
module SmallRuns {
  import opened Arith
  import opened Results
  import opened ExpirationQueue
  import opened Partitions
  import opened Deadlines
  import opened DeadlineSpec
  import opened DeadlineExact
  import opened Providers
  import opened ProvingClock
  import opened EndOfBlock
  import opened PR = ProviderRun
  import opened Runs = ProvingRun
  import A = Assignment
  import PI = PartitionInvariant

  // ---------- building small runs ----------

  lemma {:induction false} AddToPartition(p: Partition, item: SectorInfo) returns (p': Partition)
    requires item.number !in p.sectors
    ensures p' == p.(expirations := AddActive(p.expirations, {item}), sectors := p.sectors + {item.number},
                     unproven := p.unproven + {item.number})
    ensures Partitions.AddSectors(p, [item]) == Ok(p')
  {
    var items := [item];
    assert (set i | i in items) == {item} && Numbers(items) == {item.number};
    p' := Partitions.AddSectors(p, items).value;
  }

  lemma {:induction false} AddOne(d: Deadline, size: nat, item: SectorInfo, p: Partition)
      returns (p': Partition, d': Deadline)
    requires d.partitions.Keys <= {0} && p == PartitionAt(d.partitions, 0) && |p.sectors| < size
             && item.number !in p.sectors
    ensures p' == p.(expirations := AddActive(p.expirations, {item}), sectors := p.sectors + {item.number},
                     unproven := p.unproven + {item.number})
    ensures d' == d.(partitions := map[0 := p'], expirationsBlocks := d.expirationsBlocks[item.expiration := 0],
                     liveSectors := d.liveSectors + 1, totalSectors := d.totalSectors + 1)
    ensures Deadlines.AddSectors(d, size, [item]) == Ok(d')
  {
    p' := AddToPartition(p, item);
    FillOne(d.partitions, size, item, p, p');
    FirstPartition(d.partitions);
    d' := AddedOne(d, size, item, p', Ok(Filled(map[0 := p'], Updates([item], 0))));
  }

  lemma {:induction false} AddedOne(d: Deadline, size: nat, item: SectorInfo, p': Partition, r: Result<Filled, Error>)
      returns (d': Deadline)
    requires size > 0 && LastIndex(d.partitions) == 0 && r == Fill(d.partitions, 0, size, [item])
    requires r == Ok(Filled(map[0 := p'], Updates([item], 0)))
    ensures d' == d.(partitions := map[0 := p'], expirationsBlocks := d.expirationsBlocks[item.expiration := 0],
                     liveSectors := d.liveSectors + 1, totalSectors := d.totalSectors + 1)
    ensures Deadlines.AddSectors(d, size, [item]) == Ok(d')
  {
    AddIs(d, size, [item], 0, r);
    AddedAs(d.expirationsBlocks, [item], item.expiration);
    d' := AddFilled(d, r, 1).value;
  }

  lemma {:induction false} FillOne(parts: map<nat, Partition>, size: nat, item: SectorInfo, p: Partition, p': Partition)
    requires parts.Keys <= {0} && p == PartitionAt(parts, 0) && |p.sectors| < size
             && Partitions.AddSectors(p, [item]) == Ok(p')
    ensures Fill(parts, 0, size, [item]) == Ok(Filled(map[0 := p'], Updates([item], 0)))
  {
    assert parts[0 := p'] == map[0 := p'];
    FillAll(parts, 0, size, [item], p, p');
  }

  lemma {:induction false} FirstPartition(parts: map<nat, Partition>)
    requires parts.Keys <= {0}
    ensures LastIndex(parts) == 0
  {
    assert parts.Keys == {} || parts.Keys == {0};
    assert |parts| == |parts.Keys|;
  }

  lemma {:induction false} AddedAs(blocks: map<nat, nat>, items: seq<SectorInfo>, block: nat)
    requires |items| == 1 && items[0].expiration == block
    ensures Insert(blocks, Updates(items, 0)) == blocks[block := 0]
  {
    assert Updates(items, 0) == [(block, 0)] && [(block, 0)][..0] == [];
  }

  lemma {:induction false} NothingRecovered(q: Queue, infos: Infos)
    requires PI.NoEmptyEntries(q)
    ensures RescheduleRecovered(q, infos, {}) == Ok(q)
  {
    forall k | k in q ensures Recovered(q, {}, k) == {}
        && ExpirationSet(q[k].onTime, q[k].early - Recovered(q, {}, k)) == q[k] { }
    assert Rescheduled(q, infos, {}) == {};
    assert WithoutEarly(q, {}) == q;
    forall k | k in q ensures AddActive(q, {})[k] == q[k] { assert At({}, k) == {} && q[k].onTime + {} == q[k].onTime; }
    assert AddActive(q, {}).Keys == q.Keys;
    assert AddActive(q, {}) == q;
  }

  /** Proving a partition in which nothing recovers changes only what is unproven. */
  lemma {:induction false} ProveFirst(d: Deadline, infos: Infos, p: Partition) returns (d': Deadline)
    requires d.partitions == map[0 := p] && d.posted == {} && p.recoveries == {} && PI.NoEmptyEntries(p.expirations)
    ensures d' == d.(partitions := map[0 := p.(unproven := {})], posted := {0})
    ensures RecoveriesKnown(d, infos) && RecordProven(d, infos, [0]) == Ok(d')
  {
    NothingRecovered(p.expirations, infos);
    assert p.faults - {} == p.faults;
    assert Partitions.Prove(p, infos) == Ok(p.(unproven := {}));
    d' := d.(partitions := map[0 := p.(unproven := {})], posted := {0});
    ProvedAs(d, infos, p.(unproven := {}), d');
  }

  lemma {:induction false} ProvedAs(d: Deadline, infos: Infos, p': Partition, d': Deadline)
    requires d.partitions.Keys == {0} && d.posted == {} && d.partitions[0].recoveries == {}
             && Partitions.Prove(d.partitions[0], infos) == Ok(p')
    requires d' == d.(partitions := map[0 := p'], posted := {0})
    ensures RecoveriesKnown(d, infos) && RecordProven(d, infos, [0]) == Ok(d')
  {
    assert d.partitions[0 := p'] == d'.partitions && {} + {0} == {0};
    OneProof(d, infos, 0, RecordProvenOne(d, infos, 0));
  }

  // ---------- steps of a provider with one deadline in use ----------

  /** The provider with deadline 0 replaced. */
  ghost function With0(w: World, d: Deadline): World
    requires |w.sp.deadlines| > 0
  {
    w.(sp := Provider(w.sp.deadlines[0 := d], w.sp.earlyTerminations))
  }

  lemma {:induction false} AssignIs(w: World, size: nat, items: seq<SectorInfo>, d: Deadline, d': Deadline)
    requires size > 0 && |w.sp.deadlines| > 0 && w.sp.deadlines[0] == d && Unassigned(w, items)
    requires Deadlines.AddSectors(d, size, items) == Ok(d')
    ensures PR.Step(w, size, Assign(0, items)) == With0(w, d')
  {
  }

  lemma {:induction false} ProofIs(w: World, size: nat, numbers: seq<nat>, d: Deadline, d': Deadline)
    requires size > 0 && |w.sp.deadlines| > 0 && w.sp.deadlines[0] == d
    requires RecoveriesKnown(d, w.infos) && RecordProven(d, w.infos, numbers) == Ok(d')
    ensures PR.Step(w, size, Proof(0, numbers)) == With0(w, d')
  {
  }

  lemma {:induction false} RegisterIs(w: World, size: nat, x: SectorInfo)
    requires size > 0 && x.number !in w.infos
    ensures PR.Step(w, size, Register(x)) == w.(infos := w.infos[x.number := x.expiration])
  {
  }

  /** Sector x is registered and only deadline 0 has sectors, x not among them. */
  lemma {:induction false} UnassignedOne(w: World, x: SectorInfo)
    requires |w.sp.deadlines| > 0 && x.number in w.infos && w.infos[x.number] == x.expiration
    requires w.sp.deadlines[0].partitions.Keys <= {0}
             && x.number !in PartitionAt(w.sp.deadlines[0].partitions, 0).sectors
    requires forall i :: 0 < i < |w.sp.deadlines| ==> w.sp.deadlines[i] == FRESH_DEADLINE
    ensures Unassigned(w, [x])
  {
    forall i | 0 <= i < |w.sp.deadlines| ensures FreshItems(w.sp.deadlines[i].partitions, w.infos, [x]) {
      if i == 0 { assert w.sp.deadlines[0].partitions.Keys <= {0}; }
          else { assert w.sp.deadlines[i] == FRESH_DEADLINE; }
    }
  }

  ghost function Starting(deadlines: nat): World {
    World(map[], Provider(seq(deadlines, _ => FRESH_DEADLINE), {}))
  }

  // ---------- partitions of one and two sectors ----------

  /** The first partition with one sector. */
  ghost function OneSector(x: SectorInfo, unproven: set<nat>): Partition {
    Partition({x.number}, unproven, {}, {}, {}, map[x.expiration := ExpirationSet({x.number}, {})], map[])
  }

  /** ... and with a second one that expires at another block. */
  ghost function TwoSectors(x: SectorInfo, y: SectorInfo, unproven: set<nat>): Partition
    requires x.expiration != y.expiration
  {
    Partition({x.number, y.number}, unproven, {}, {}, {},
              map[x.expiration := ExpirationSet({x.number}, {}), y.expiration := ExpirationSet({y.number}, {})], map[])
  }

  lemma {:induction false} FirstEntry(x: SectorInfo)
    ensures AddActive(map[], {x}) == map[x.expiration := ExpirationSet({x.number}, {})]
  {
    var q := AddActive(map[], {x});
    assert q.Keys == {x.expiration} && At({x}, x.expiration) == {x.number} && {} + {x.number} == {x.number};
    assert q == map[x.expiration := ExpirationSet({x.number}, {})];
  }

  lemma {:induction false} SecondEntry(q: Queue, x: SectorInfo, y: SectorInfo)
    requires x.expiration != y.expiration && q == map[x.expiration := ExpirationSet({x.number}, {})]
    ensures AddActive(q, {y}) == map[x.expiration := ExpirationSet({x.number}, {}),
                                     y.expiration := ExpirationSet({y.number}, {})]
  {
    var q' := AddActive(q, {y});
    assert q'.Keys == {x.expiration, y.expiration} && At({y}, y.expiration) == {y.number}
        && At({y}, x.expiration) == {};
    assert {x.number} + {} == {x.number} && {} + {y.number} == {y.number};
  }

  lemma {:induction false} AddFirst(size: nat, x: SectorInfo) returns (d: Deadline)
    requires size > 0
    ensures d == Deadline(map[0 := OneSector(x, {x.number})], map[x.expiration := 0], {}, {}, 1, 1)
    ensures Deadlines.AddSectors(FRESH_DEADLINE, size, [x]) == Ok(d)
  {
    var p;
    p, d := AddOne(FRESH_DEADLINE, size, x, EMPTY_PARTITION);
    FirstEntry(x);
    assert p == OneSector(x, {x.number})
        && FRESH_DEADLINE.expirationsBlocks[x.expiration := 0] == map[x.expiration := 0];
  }

  lemma {:induction false} AddSecond(size: nat, x: SectorInfo, y: SectorInfo, d: Deadline, unproven: set<nat>)
      returns (d': Deadline)
    requires size >= 2 && x.number != y.number && x.expiration != y.expiration
    requires d.partitions == map[0 := OneSector(x, unproven)] && d.expirationsBlocks == map[x.expiration := 0]
    ensures d' == d.(partitions := map[0 := TwoSectors(x, y, unproven + {y.number})],
                     expirationsBlocks := map[x.expiration := 0, y.expiration := 0],
                     liveSectors := d.liveSectors + 1, totalSectors := d.totalSectors + 1)
    ensures Deadlines.AddSectors(d, size, [y]) == Ok(d')
  {
    var p := OneSector(x, unproven);
    var p';
    p', d' := AddOne(d, size, y, p);
    SecondEntry(p.expirations, x, y);
    assert p' == TwoSectors(x, y, unproven + {y.number});
    assert d.expirationsBlocks[y.expiration := 0] == map[x.expiration := 0, y.expiration := 0];
  }

  // ---------- blocks ----------

  /** The provider with only deadline 0 in use, on time. */
  ghost function AtBlock(g: Setting, infos: Infos, d: Deadline, now: nat): (s: State)
    requires g.Sound()
    ensures s.Timed(g.c)
  {
    Running(With0(Starting(g.c.deadlines).(infos := infos), d), Before(g.c, g.first, g.registered, now), now)
  }

  ghost function Blocks(k: nat): seq<Event> {
    seq(k, _ => EndBlock)
  }

  lemma {:induction false} FromAppend(g: Setting, s: State, a: seq<Event>, b: seq<Event>)
    requires g.Sound() && s.Timed(g.c)
    ensures From(g, s, a + b) == From(g, From(g, s, a), b)
  {
    if b == [] {
      assert a + b == a;
    } else {
      assert (a + b)[..|a + b| - 1] == a + b[..|b| - 1];
      FromAppend(g, s, a, b[..|b| - 1]);
    }
  }

  lemma {:induction false} FromSnoc(g: Setting, s: State, events: seq<Event>, e: Event, s': State)
    requires g.Sound() && s.Timed(g.c) && s' == From(g, s, events)
    ensures From(g, s, events + [e]) == Runs.Step(g, s', e)
  {
    assert (events + [e])[..|events|] == events;
  }

  lemma {:induction false} FromOne(g: Setting, s: State, e: Event, s': State)
    requires g.Sound() && s.Timed(g.c) && s' == Runs.Step(g, s, e)
    ensures From(g, s, [e]) == s'
  {
    FromSnoc(g, s, [], e, s);
    assert [] + [e] == [e];
  }

  lemma {:induction false} Then(g: Setting, s: State, a: seq<Event>, s1: State, b: seq<Event>, s2: State)
    requires g.Sound() && s.Timed(g.c) && From(g, s, a) == s1 && From(g, s1, b) == s2
    ensures From(g, s, a + b) == s2
  {
    FromAppend(g, s, a, b);
  }

  lemma {:induction false} RunThen(g: Setting, a: seq<Event>, s: State, b: seq<Event>, s': State)
    requires g.Sound() && s.Timed(g.c) && Runs.Run(g, a) == s && From(g, s, b) == s'
    ensures Runs.Run(g, a + b) == s'
  {
    FromAppend(g, Start(g), a, b);
  }

  lemma {:induction false} RunSnoc(g: Setting, events: seq<Event>, e: Event, s: State, s': State)
    requires g.Sound() && s.Timed(g.c) && Runs.Run(g, events) == s && Runs.Step(g, s, e) == s'
    ensures Runs.Run(g, events + [e]) == s'
  {
    FromSnoc(g, Start(g), events, e, s);
  }

  /** Whether finalising block b closes deadline 0. */
  ghost predicate ClosesFirst(g: Setting, b: nat)
    requires g.Sound()
  {
    var k := Before(g.c, g.first, g.registered, b);
    Closes(g.c, k, b) && k.deadline == 0
  }

  lemma {:induction false} MissNone(d: Deadline, infos: Infos, todo: set<nat>, block: nat)
    requires todo <= d.partitions.Keys && todo <= d.posted
    ensures MissAll(d, infos, todo, block) == d
    decreases todo
  {
    if todo != {} { MissNone(d, infos, todo - {Least(todo)}, block); }
  }

  /** In a deadline that is proven no proof is missed. */
  lemma {:induction false} CheckedProven(d: Deadline, infos: Infos, block: nat)
    requires d.partitions.Keys <= d.posted
    ensures Checked(d, infos, block) == d.(posted := {})
  {
    MissNone(d, infos, d.partitions.Keys, block);
  }

  lemma {:induction false} ClosesAs(w: World, i: nat, last: nat, maxAge: nat, d: Deadline, sp: Provider,
                                    r: Result<(Provider, ExpirationSet), Error>)
    requires i < |w.sp.deadlines| && d == Checked(w.sp.deadlines[i], w.infos, last + maxAge)
    requires sp == w.sp.(deadlines := w.sp.deadlines[i := d]) && r == CloseDeadline(sp, i, last) && r.Ok?
    ensures CloseCurrent(w, i, last, maxAge) == Ok(w.(sp := r.value.0))
  {
  }

  /** Closing a deadline in which nothing is due only deals with missed proofs. */
  lemma {:induction false} ClosedQuietly(w: World, i: nat, last: nat, maxAge: nat, d: Deadline)
    requires i < |w.sp.deadlines| && d == Checked(w.sp.deadlines[i], w.infos, last + maxAge)
    requires forall b :: b in d.expirationsBlocks ==> b > last
    ensures CloseCurrent(w, i, last, maxAge) == Ok(w.(sp := Provider(w.sp.deadlines[i := d], w.sp.earlyTerminations)))
  {
    var sp := w.sp.(deadlines := w.sp.deadlines[i := d]);
    NothingExpires(sp, i, last, d);
    ClosesAs(w, i, last, maxAge, d, sp, Ok((sp, EMPTY_SET)));
  }

  lemma {:induction false} NothingExpires(sp: Provider, i: nat, last: nat, d: Deadline)
    requires i < |sp.deadlines| && sp.deadlines[i] == d && forall b :: b in d.expirationsBlocks ==> b > last
    ensures CloseDeadline(sp, i, last) == Ok((sp, EMPTY_SET))
  {
    assert DueBlocks(d.expirationsBlocks, last) == {};
    var sp' := CloseIs(sp, i, last, d, EMPTY_SET);
    assert sp.deadlines[i := d] == sp.deadlines;
  }

  /** A block ends. */
  lemma {:induction false} BlockEnds(g: Setting, infos: Infos, d: Deadline, d': Deadline, now: nat)
    requires g.Sound() && now >= g.registered && (!ClosesFirst(g, now) ==> d' == d)
    requires ClosesFirst(g, now) ==>
               now > 0 && d' == Checked(d, infos, now - 1 + g.maxAge)
                   && forall b :: b in d'.expirationsBlocks ==> b >= now
    ensures Runs.Step(g, AtBlock(g, infos, d, now), EndBlock) == AtBlock(g, infos, d', now + 1)
  {
    var s := AtBlock(g, infos, d, now);
    ClosesOnTime(g.c, g.first, g.registered, now);
    BeforeNext(g.c, g.first, g.registered, now);
    if Closes(g.c, s.clock, now) {
      var i, last := s.clock.deadline, Current(g.c, s.clock, now).Last();
      if i > 0 { CheckedProven(FRESH_DEADLINE, infos, last + g.maxAge); }
      var e := if i == 0 then d' else FRESH_DEADLINE;
      ClosedQuietly(s.w, i, last, g.maxAge, e);
      ClosingIs(g, s, last, CloseCurrent(s.w, i, last, g.maxAge));
      assert s.w.sp.deadlines[i := e] == AtBlock(g, infos, d', now + 1).w.sp.deadlines;
    }
  }

  lemma {:induction false} BlockPasses(g: Setting, infos: Infos, d: Deadline, now: nat, next: nat, s: State)
      returns (s': State)
    requires g.Sound() && now >= g.registered && !ClosesFirst(g, now) && next == now + 1
             && s == AtBlock(g, infos, d, now)
    ensures s' == AtBlock(g, infos, d, next) && Runs.Step(g, s, EndBlock) == s'
  {
    BlockEnds(g, infos, d, d, now);
    s' := Runs.Step(g, s, EndBlock);
  }

  lemma {:induction false} OneMoreBlock(g: Setting, s: State, k: nat, s1: State, s2: State)
    requires g.Sound() && s.Timed(g.c) && k > 0 && From(g, s, Blocks(k - 1)) == s1 && s2 == Runs.Step(g, s1, EndBlock)
    ensures From(g, s, Blocks(k)) == s2
  {
    assert Blocks(k) == Blocks(k - 1) + [EndBlock];
    FromSnoc(g, s, Blocks(k - 1), EndBlock, s1);
  }

  /** Blocks pass that do not close deadline 0. */
  lemma {:induction false} BlocksPass(g: Setting, infos: Infos, d: Deadline, now: nat, until: nat, s: State)
      returns (s': State)
    requires g.Sound() && g.registered <= now <= until && forall b :: now <= b < until ==> !ClosesFirst(g, b)
    requires s == AtBlock(g, infos, d, now)
    ensures s' == AtBlock(g, infos, d, until) && From(g, s, Blocks(until - now)) == s'
    decreases until
  {
    if now == until {
      s' := s;
    } else {
      var s1 := BlocksPass(g, infos, d, now, until - 1, s);
      s' := BlockPasses(g, infos, d, until - 1, until, s1);
      OneMoreBlock(g, s, until - now, s1, s');
    }
  }

  // ---------- the windows of deadline 0 ----------

  lemma {:induction false} FirstClosing(g: Setting, m: nat, b: nat)
    requires g.Sound() && StartOf(g.c, g.first, m) < b <= StartOf(g.c, g.first, m) + g.c.period
    ensures ClosesFirst(g, b) <==> b == StartOf(g.c, g.first, m) + g.c.window
  {
    ClosedOncePerPeriod(g.c, g.first, g.registered, m, 0, b);
  }

  lemma {:induction false} NotClosedYet(g: Setting, b: nat)
    requires g.Sound() && b < g.first + g.c.window
    ensures !ClosesFirst(g, b)
  {
    if b <= g.first {
      ClockWindows(g.c, g.first, g.registered, b);
      WindowsZero(g.c, g.first);
    } else {
      MulOrder(1, g.c.deadlines, g.c.window);
      FirstClosing(g, 0, b);
    }
  }

  lemma {:induction false} NotClosedAgain(g: Setting, m: nat, b: nat)
    requires g.Sound()
    requires StartOf(g.c, g.first, m) + g.c.window < b < StartOf(g.c, g.first, m + 1) + g.c.window
    ensures !ClosesFirst(g, b)
  {
    MulOrder(m + 1, m, g.c.period);
    MulOrder(1, g.c.deadlines, g.c.window);
    if b <= StartOf(g.c, g.first, m + 1) { FirstClosing(g, m, b); } else { FirstClosing(g, m + 1, b); }
  }

  /** A block at which deadline 0 accepts proofs in the m-th period: not its first one, except in the first period. */
  ghost predicate Opens(g: Setting, m: nat, t: nat) {
    t < g.c.window && (t > 0 || m == 0)
  }

  lemma {:induction false} OpenClock(g: Setting, m: nat, t: nat)
    requires g.Sound() && Opens(g, m, t)
    ensures Before(g.c, g.first, g.registered, StartOf(g.c, g.first, m) + t) == Clock(StartOf(g.c, g.first, m), 0)
  {
    var b := StartOf(g.c, g.first, m) + t;
    if t == 0 {
      ClockWindows(g.c, g.first, g.registered, b);
      WindowsZero(g.c, g.first);
    } else {
      MulOrder(1, g.c.deadlines, g.c.window);
      MulOrder(0, m, g.c.period);
      ClockClosedForm(g.c, g.first, g.registered, b - 1);
      DivBy(b - 1 - g.first, m, g.c.period, t - 1);
      DivBy(t - 1, 0, g.c.window, t - 1);
    }
  }

  // ---------- a proof in every period ----------

  /** The only partition is proven and nothing in it waits for a proof. */
  ghost predicate Settled(d: Deadline) {
    && d.partitions.Keys == {0} && d.posted == {0}
    && Ready(d.partitions[0]) && PI.NoEmptyEntries(d.partitions[0].expirations)
  }

  /** Proving it again after its deadline closed restores it. */
  lemma {:induction false} ProvenAgain(d: Deadline, infos: Infos)
    requires Settled(d)
    ensures RecoveriesKnown(d.(posted := {}), infos) && RecordProven(d.(posted := {}), infos, [0]) == Ok(d)
  {
    var p := d.partitions[0];
    var d' := ProveFirst(d.(posted := {}), infos, p);
    assert d.partitions == map[0 := p] && p.(unproven := {}) == p;
  }

  lemma {:induction false} CallStep(g: Setting, s: State, op: Op, w: World)
    requires g.Sound() && s.Running? && s.Timed(g.c) && Accepts(g, s, op) && PR.Step(s.w, g.size, op) == w
    ensures Runs.Step(g, s, Call(op)) == s.(w := w)
  {
  }

  lemma {:induction false} ProofStep(g: Setting, infos: Infos, d: Deadline, d': Deadline, m: nat, t: nat, now: nat,
                                     s: State)
      returns (s': State)
    requires g.Sound() && Opens(g, m, t) && now == StartOf(g.c, g.first, m) + t && s == AtBlock(g, infos, d, now)
    requires RecoveriesKnown(d, infos) && RecordProven(d, infos, [0]) == Ok(d')
    ensures s' == AtBlock(g, infos, d', now) && Runs.Step(g, s, Call(Proof(0, [0]))) == s'
  {
    OpenClock(g, m, t);
    ProofIs(s.w, g.size, [0], d, d');
    assert Current(g.c, s.clock, now).IsOpen();
    s' := AtBlock(g, infos, d', now);
    assert With0(s.w, d') == s'.w;
    CallStep(g, s, Proof(0, [0]), s'.w);
  }

  /** The block at which deadline 0 closes in the m-th period. */
  ghost function ClosingAt(g: Setting, m: nat): (b: nat)
    ensures b >= g.first + g.c.window
  {
    if m == 0 then g.first + g.c.window else ClosingAt(g, m - 1) + g.c.period
  }

  lemma {:induction false} ClosingIsAt(g: Setting, m: nat)
    ensures ClosingAt(g, m) == StartOf(g.c, g.first, m) + g.c.window
  {
    if m > 0 {
      ClosingIsAt(g, m - 1);
      MulOrder(m, m - 1, g.c.period);
    }
  }

  lemma {:induction false} ClosesThen(g: Setting, m: nat, b: nat)
    requires g.Sound() && b == ClosingAt(g, m)
    ensures ClosesFirst(g, b) && b > 0
  {
    ClosingIsAt(g, m);
    MulOrder(1, g.c.deadlines, g.c.window);
    FirstClosing(g, m, b);
  }

  /** From a proof up to the block at which the deadline closes. */
  lemma {:induction false} UpToClosing(g: Setting, infos: Infos, d: Deadline, m: nat, t: nat, now: nat, s: State)
      returns (s': State)
    requires g.Sound() && Opens(g, m, t) && now == StartOf(g.c, g.first, m) + t && s == AtBlock(g, infos, d, now)
    ensures s' == AtBlock(g, infos, d, ClosingAt(g, m)) && From(g, s, Blocks(g.c.window - t)) == s'
  {
    ClosingIsAt(g, m);
    MulOrder(1, g.c.deadlines, g.c.window);
    forall b | now <= b < ClosingAt(g, m) ensures !ClosesFirst(g, b) {
      if m == 0 { NotClosedYet(g, b); } else { FirstClosing(g, m, b); }
    }
    s' := BlocksPass(g, infos, d, now, ClosingAt(g, m), s);
  }

  /** The closing block ends. */
  lemma {:induction false} ClosingEnds(g: Setting, infos: Infos, d: Deadline, m: nat, s: State, next: nat)
      returns (s': State)
    requires g.Sound() && Settled(d) && next == ClosingAt(g, m) + 1
    requires s == AtBlock(g, infos, d, ClosingAt(g, m)) && forall b :: b in d.expirationsBlocks ==> b >= ClosingAt(g, m)
    ensures s' == AtBlock(g, infos, d.(posted := {}), next) && From(g, s, [EndBlock]) == s'
  {
    ClosesThen(g, m, ClosingAt(g, m));
    CheckedProven(d, infos, ClosingAt(g, m) - 1 + g.maxAge);
    BlockEnds(g, infos, d, d.(posted := {}), ClosingAt(g, m));
    s' := AtBlock(g, infos, d.(posted := {}), next);
    FromOne(g, s, EndBlock, s');
  }

  /** From the closing block up to the block of the next proof. */
  lemma {:induction false} PastClosing(g: Setting, infos: Infos, d: Deadline, m: nat, t: nat, now: nat, next: nat,
                                       s: State)
      returns (s': State)
    requires g.Sound() && g.c.deadlines >= 2 && t < g.c.window && now == ClosingAt(g, m) + 1
    requires next == StartOf(g.c, g.first, m + 1) + t && s == AtBlock(g, infos, d, now)
    ensures next >= now && s' == AtBlock(g, infos, d, next) && From(g, s, Blocks(next - now)) == s'
  {
    QuietUntilNext(g, m, t, now, next);
    s' := BlocksPass(g, infos, d, now, next, s);
  }

  lemma {:induction false} QuietUntilNext(g: Setting, m: nat, t: nat, now: nat, next: nat)
    requires g.Sound() && g.c.deadlines >= 2 && t < g.c.window && now == ClosingAt(g, m) + 1
    requires next == StartOf(g.c, g.first, m + 1) + t
    ensures g.registered <= now <= next && forall b :: now <= b < next ==> !ClosesFirst(g, b)
  {
    ClosingIsAt(g, m);
    MulOrder(m + 1, m, g.c.period);
    MulOrder(0, m, g.c.period);
    MulOrder(2, g.c.deadlines, g.c.window);
    forall b | now <= b < next ensures !ClosesFirst(g, b) { NotClosedAgain(g, m, b); }
  }

  /** A whole period from one proof to the next. */
  lemma {:induction false} Round(g: Setting, infos: Infos, d: Deadline, m: nat, t: nat, now: nat, next: nat, s: State)
      returns (s': State)
    requires g.Sound() && g.c.deadlines >= 2 && Settled(d) && 0 < t < g.c.window
    requires now == StartOf(g.c, g.first, m) + t && next == StartOf(g.c, g.first, m + 1) + t
    requires s == AtBlock(g, infos, d, now) && forall b :: b in d.expirationsBlocks ==> b >= ClosingAt(g, m)
    ensures s' == AtBlock(g, infos, d, next) && From(g, s, Blocks(g.c.period) + [Call(Proof(0, [0]))]) == s'
  {
    var s1 := RoundBlocks(g, infos, d, m, t, now, next, ClosingAt(g, m) + 1, s);
    ProvenAgain(d, infos);
    s' := ProofStep(g, infos, d.(posted := {}), d, m + 1, t, next, s1);
    FromSnoc(g, s, Blocks(g.c.period), Call(Proof(0, [0])), s1);
  }

  lemma {:induction false} RoundBlocks(g: Setting, infos: Infos, d: Deadline, m: nat, t: nat, now: nat, next: nat,
                                       closed: nat, s: State)
      returns (s': State)
    requires g.Sound() && g.c.deadlines >= 2 && Settled(d) && 0 < t < g.c.window && closed == ClosingAt(g, m) + 1
    requires now == StartOf(g.c, g.first, m) + t && next == StartOf(g.c, g.first, m + 1) + t
    requires s == AtBlock(g, infos, d, now) && forall b :: b in d.expirationsBlocks ==> b >= ClosingAt(g, m)
    ensures s' == AtBlock(g, infos, d.(posted := {}), next) && From(g, s, Blocks(g.c.period)) == s'
  {
    var s1 := UpToClosing(g, infos, d, m, t, now, s);
    var s2 := ClosingEnds(g, infos, d, m, s1, closed);
    s' := PastClosing(g, infos, d.(posted := {}), m, t, closed, next, s2);
    RoundLength(g, m, t, next, closed);
    RoundEvents(g, s, t, next - closed, s1, s2, s');
  }

  lemma {:induction false} RoundLength(g: Setting, m: nat, t: nat, next: nat, closed: nat)
    requires closed == ClosingAt(g, m) + 1 && next == StartOf(g.c, g.first, m + 1) + t
    ensures g.c.window - t + 1 + (next - closed) == g.c.period
  {
    ClosingIsAt(g, m);
    MulOrder(m + 1, m, g.c.period);
  }

  lemma {:induction false} RoundEvents(g: Setting, s: State, t: nat, k: nat, s1: State, s2: State, s3: State)
    requires g.Sound() && s.Timed(g.c) && t < g.c.window && g.c.window - t + 1 + k == g.c.period
    requires From(g, s, Blocks(g.c.window - t)) == s1 && From(g, s1, [EndBlock]) == s2 && From(g, s2, Blocks(k)) == s3
    ensures From(g, s, Blocks(g.c.period)) == s3
  {
    var a := Blocks(g.c.window - t);
    Then(g, s, a, s1, [EndBlock], s2);
    Then(g, s, a + [EndBlock], s2, Blocks(k), s3);
    assert a + [EndBlock] + Blocks(k) == Blocks(g.c.period);
  }

  ghost function Rounds(g: Setting, m: nat): seq<Event> {
    if m == 0 then [] else Rounds(g, m - 1) + (Blocks(g.c.period) + [Call(Proof(0, [0]))])
  }

  /** Nothing in the deadline is due before the m-th period. */
  ghost predicate DueFrom(g: Setting, d: Deadline, m: nat) {
    m > 0 ==> forall b :: b in d.expirationsBlocks ==> b >= ClosingAt(g, m - 1)
  }

  lemma {:induction false} DueEarlier(g: Setting, d: Deadline, m: nat)
    requires m > 0 && DueFrom(g, d, m)
    ensures DueFrom(g, d, m - 1)
  {
  }

  /** Periods pass, with a proof in each, as long as nothing is due. */
  lemma {:induction false} RoundsPass(g: Setting, infos: Infos, d: Deadline, m: nat, t: nat, now: nat, s: State)
      returns (s': State)
    requires g.Sound() && g.c.deadlines >= 2 && Settled(d) && Opens(g, m, t) && DueFrom(g, d, m)
    requires s == AtBlock(g, infos, d, g.first + t) && now == StartOf(g.c, g.first, m) + t
    ensures s' == AtBlock(g, infos, d, now) && From(g, s, Rounds(g, m)) == s'
  {
    if m == 0 {
      s' := s;
    } else {
      DueEarlier(g, d, m);
      var before := StartOf(g.c, g.first, m - 1) + t;
      var s1 := RoundsPass(g, infos, d, m - 1, t, before, s);
      s' := OneMoreRound(g, infos, d, m - 1, t, before, now, s, s1);
    }
  }

  lemma {:induction false} OneMoreRound(g: Setting, infos: Infos, d: Deadline, m: nat, t: nat, now: nat, next: nat,
                                        s: State, s1: State)
      returns (s': State)
    requires g.Sound() && g.c.deadlines >= 2 && Settled(d) && 0 < t < g.c.window && DueFrom(g, d, m + 1)
    requires now == StartOf(g.c, g.first, m) + t && next == StartOf(g.c, g.first, m + 1) + t
    requires s.Timed(g.c) && From(g, s, Rounds(g, m)) == s1 && s1 == AtBlock(g, infos, d, now)
    ensures s' == AtBlock(g, infos, d, next) && From(g, s, Rounds(g, m + 1)) == s'
  {
    s' := Round(g, infos, d, m, t, now, next, s1);
    Then(g, s, Rounds(g, m), s1, Blocks(g.c.period) + [Call(Proof(0, [0]))], s');
  }

  // ---------- which period a block falls due in ----------

  /** The first period at whose closing of deadline 0 block b is due. */
  ghost function DuePeriod(g: Setting, b: nat): nat
    requires g.Sound()
  {
    if b < g.first + g.c.window then 0 else (b - g.first - g.c.window) / g.c.period + 1
  }

  lemma {:induction false} DueWhen(g: Setting, b: nat, m: nat)
    requires g.Sound()
    ensures DuePeriod(g, b) == m <==> b < ClosingAt(g, m) && (m > 0 ==> b >= ClosingAt(g, m - 1))
  {
    ClosingIsAt(g, m);
    MulOrder(0, m, g.c.period);
    if b >= g.first + g.c.window {
      var q, r := Euclid(b - g.first - g.c.window, g.c.period);
      MulOrder(q + 1, q, g.c.period);
      MulOrder(m, q + 1, g.c.period);
      MulOrder(q + 1, m, g.c.period);
      if m > 0 { MulOrder(m, m - 1, g.c.period); }
    }
  }

  // ---------- before the first period ----------

  lemma {:induction false} EarlyClock(g: Setting, now: nat)
    requires g.Sound() && now <= g.first
    ensures Before(g.c, g.first, g.registered, now) == Clock(g.first, 0)
  {
    ClockWindows(g.c, g.first, g.registered, now);
    WindowsZero(g.c, g.first);
  }

  lemma {:induction false} RegisterStep(g: Setting, infos: Infos, d: Deadline, now: nat, x: SectorInfo, infos': Infos,
                                        s: State)
      returns (s': State)
    requires g.Sound() && x.number !in infos && infos' == infos[x.number := x.expiration]
             && s == AtBlock(g, infos, d, now)
    ensures s' == AtBlock(g, infos', d, now) && Runs.Step(g, s, Call(Register(x))) == s'
  {
    RegisterIs(s.w, g.size, x);
    s' := AtBlock(g, infos', d, now);
    CallStep(g, s, Register(x), s'.w);
  }

  lemma {:induction false} AssignStep(g: Setting, infos: Infos, d: Deadline, now: nat, x: SectorInfo, d': Deadline,
                                      s: State)
      returns (s': State)
    requires g.Sound() && now < g.first && x.number in infos && infos[x.number] == x.expiration
             && s == AtBlock(g, infos, d, now)
    requires d.partitions.Keys <= {0} && x.number !in PartitionAt(d.partitions, 0).sectors
    requires Deadlines.AddSectors(d, g.size, [x]) == Ok(d')
    ensures s' == AtBlock(g, infos, d', now) && Runs.Step(g, s, Call(Assign(0, [x]))) == s'
  {
    EarlyClock(g, now);
    AssignWorld(g.c.deadlines, infos, d, g.size, x, d');
    s' := AtBlock(g, infos, d', now);
    CallStep(g, s, Assign(0, [x]), s'.w);
  }

  lemma {:induction false} AssignWorld(n: nat, infos: Infos, d: Deadline, size: nat, x: SectorInfo, d': Deadline)
    requires n > 0 && size > 0 && x.number in infos && infos[x.number] == x.expiration
    requires d.partitions.Keys <= {0} && x.number !in PartitionAt(d.partitions, 0).sectors
    requires Deadlines.AddSectors(d, size, [x]) == Ok(d')
    ensures PR.Step(With0(Starting(n).(infos := infos), d), size, Assign(0, [x]))
            == With0(Starting(n).(infos := infos), d')
  {
    var w := With0(Starting(n).(infos := infos), d);
    UnassignedOne(w, x);
    AssignIs(w, size, [x], d, d');
    With0Again(Starting(n).(infos := infos), d, d');
  }

  lemma {:induction false} With0Again(w: World, d: Deadline, d': Deadline)
    requires |w.sp.deadlines| > 0
    ensures With0(With0(w, d), d') == With0(w, d')
  {
    assert w.sp.deadlines[0 := d][0 := d'] == w.sp.deadlines[0 := d'];
  }

  /** The provider registers and waits. */
  lemma {:induction false} Waited(g: Setting, now: nat) returns (s: State)
    requires g.Sound() && g.registered <= now <= g.first
    ensures s == AtBlock(g, map[], FRESH_DEADLINE, now) && Runs.Run(g, Blocks(now - g.registered)) == s
  {
    EarlyClock(g, g.registered);
    assert With0(Starting(g.c.deadlines), FRESH_DEADLINE) == Starting(g.c.deadlines);
    forall b | g.registered <= b < now ensures !ClosesFirst(g, b) { NotClosedYet(g, b); }
    s := BlocksPass(g, map[], FRESH_DEADLINE, g.registered, now, Start(g));
  }

  /** ... up to the first proof. */
  lemma {:induction false} UpToProof(g: Setting, infos: Infos, d: Deadline, d': Deadline, now: nat, t: nat, next: nat,
                                     s: State)
      returns (s': State)
    requires g.Sound() && g.registered <= now <= g.first && t < g.c.window && s == AtBlock(g, infos, d, now)
    requires RecoveriesKnown(d, infos) && RecordProven(d, infos, [0]) == Ok(d') && next == g.first + t
    ensures s' == AtBlock(g, infos, d', next) && From(g, s, Blocks(next - now) + [Call(Proof(0, [0]))]) == s'
  {
    forall b | now <= b < next ensures !ClosesFirst(g, b) { NotClosedYet(g, b); }
    var s1 := BlocksPass(g, infos, d, now, next, s);
    s' := ProofStep(g, infos, d, d', 0, t, next, s1);
    FromSnoc(g, s, Blocks(next - now), Call(Proof(0, [0])), s1);
  }

  /** From block now, before the first period, a proof in every period, t blocks after deadline 0 opens, up to
      the block at which it closes in the m-th period. */
  ghost function Proving(g: Setting, now: nat, t: nat, m: nat): seq<Event>
    requires now <= g.first && t < g.c.window
  {
    (Blocks(g.first + t - now) + [Call(Proof(0, [0]))]) + Rounds(g, m) + Blocks(g.c.window - t)
  }

  lemma {:induction false} ProvenUntil(g: Setting, infos: Infos, d: Deadline, d': Deadline, now: nat, t: nat, m: nat,
                                       next: nat, at: nat, closing: nat, s: State)
      returns (s': State)
    requires next == g.first + t && at == StartOf(g.c, g.first, m) + t && closing == ClosingAt(g, m)
    requires g.Sound() && g.c.deadlines >= 2 && g.registered <= now <= g.first && Opens(g, m, t)
    requires RecoveriesKnown(d, infos) && RecordProven(d, infos, [0]) == Ok(d') && Settled(d') && DueFrom(g, d', m)
    requires s == AtBlock(g, infos, d, now)
    ensures s' == AtBlock(g, infos, d', closing) && From(g, s, Proving(g, now, t, m)) == s'
  {
    var s1, s2;
    s1, s2, s' := ProvenParts(g, infos, d, d', now, t, m, next, at, s);
    Joins(g, s, Blocks(next - now) + [Call(Proof(0, [0]))], s1, Rounds(g, m), s2, Blocks(g.c.window - t), s');
  }

  lemma {:induction false} ProvenParts(g: Setting, infos: Infos, d: Deadline, d': Deadline, now: nat, t: nat, m: nat,
                                       next: nat, at: nat, s: State)
      returns (s1: State, s2: State, s3: State)
    requires g.Sound() && g.c.deadlines >= 2 && g.registered <= now <= g.first && Opens(g, m, t)
    requires RecoveriesKnown(d, infos) && RecordProven(d, infos, [0]) == Ok(d') && Settled(d') && DueFrom(g, d', m)
    requires s == AtBlock(g, infos, d, now) && next == g.first + t && at == StartOf(g.c, g.first, m) + t
    ensures From(g, s, Blocks(next - now) + [Call(Proof(0, [0]))]) == s1 && From(g, s1, Rounds(g, m)) == s2
    ensures From(g, s2, Blocks(g.c.window - t)) == s3 && s3 == AtBlock(g, infos, d', ClosingAt(g, m))
  {
    s1 := UpToProof(g, infos, d, d', now, t, next, s);
    s2 := RoundsPass(g, infos, d', m, t, at, s1);
    s3 := UpToClosing(g, infos, d', m, t, at, s2);
  }

  lemma {:induction false} Joins(g: Setting, s: State, a: seq<Event>, s1: State, b: seq<Event>, s2: State,
                                 c: seq<Event>, s3: State)
    requires g.Sound() && s.Timed(g.c) && From(g, s, a) == s1 && From(g, s1, b) == s2 && From(g, s2, c) == s3
    ensures From(g, s, a + b + c) == s3
  {
    Then(g, s, a, s1, b, s2);
    Then(g, s, a + b, s2, c, s3);
  }

  // ---------- where new sectors go ----------

  ghost function LoadOf(ds: seq<Deadline>, i: nat): A.Load
    requires i < |ds|
  {
    A.Load(i, ds[i].liveSectors, ds[i].totalSectors)
  }

  /** Deadline i is the one the pallet assigns the next sector to. */
  ghost predicate Picks(g: Setting, s: State, i: nat)
    requires g.Sound() && s.Running? && s.Timed(g.c)
  {
    var ds := s.w.sp.deadlines;
    && i < |ds| && Accepts(g, s, Assign(i, []))
    && forall j :: 0 <= j < |ds| && j != i && Accepts(g, s, Assign(j, []))
        ==> A.Rank(LoadOf(ds, i), LoadOf(ds, j), g.size) == A.Less
  }

  /** The first deadline is filled first ... */
  lemma {:induction false} RanksFirst(d: Deadline, j: nat, size: nat)
    requires size > 0 && j > 0
    requires d.liveSectors == d.totalSectors == 0 || (size >= 2 && d.liveSectors == d.totalSectors == 1)
    ensures A.Rank(A.Load(0, d.liveSectors, d.totalSectors), A.Load(j, 0, 0), size) == A.Less
  {
    DivBy(size, 1, size, 0);
    DivBy(0, 0, size, 0);
    if d.totalSectors == 1 {
      DivBy(size + 1, 1, size, 1);
      DivBy(1, 0, size, 1);
    }
  }

  /** ... and goes on being filled while it has one sector. */
  lemma {:induction false} PicksFirst(g: Setting, infos: Infos, d: Deadline, now: nat, s: State)
    requires g.Sound() && s == AtBlock(g, infos, d, now) && Accepts(g, s, Assign(0, []))
    requires d.liveSectors == d.totalSectors == 0 || (g.size >= 2 && d.liveSectors == d.totalSectors == 1)
    ensures Picks(g, s, 0)
  {
    var ds := s.w.sp.deadlines;
    forall j | 0 < j < |ds| ensures A.Rank(LoadOf(ds, 0), LoadOf(ds, j), g.size) == A.Less {
      assert ds[0] == d && ds[j] == FRESH_DEADLINE;
      RanksFirst(d, j, g.size);
    }
  }
}
