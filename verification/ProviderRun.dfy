/** Whole runs of a storage provider: every reachable provider has valid deadlines, no sector in two
    places, and marks wherever early terminations are recorded. */
module ProviderRun {
  import opened Arith
  import opened Results
  import opened ExpirationQueue
  import opened Partitions
  import opened EarlyTerminations
  import opened Deadlines
  import opened DeadlineSpec
  import opened Providers
  import opened Draining
  import DI = DeadlineInvariant
  import PI = PartitionInvariant

  // ---------- what operations leave alone ----------

  /** The same partitions with the same sectors. */
  ghost predicate SameSectors(d: Deadline, d': Deadline) {
    d'.partitions.Keys == d.partitions.Keys
        && forall n :: n in d.partitions ==> d'.partitions[n].sectors == d.partitions[n].sectors
  }

  /** No early termination is recorded that was not recorded before. */
  ghost predicate NoNewRecords(d: Deadline, d': Deadline) {
    forall n, b :: n in d'.partitions && b in d'.partitions[n].earlyTerminations ==>
      d'.partitions[n].earlyTerminations[b] <= SectorsAt(PartitionAt(d.partitions, n).earlyTerminations, b)
  }

  ghost predicate Quiet(d: Deadline, d': Deadline) {
    SameSectors(d, d') && NoNewRecords(d, d')
  }

  lemma {:induction false} QuietReplace(d: Deadline, n: nat, p: Partition, d': Deadline)
    requires n in d.partitions && p.sectors == d.partitions[n].sectors
             && p.earlyTerminations == d.partitions[n].earlyTerminations
    requires d'.partitions == d.partitions[n := p]
    ensures Quiet(d, d')
  {
  }

  lemma {:induction false} QuietTrans(a: Deadline, b: Deadline, c: Deadline)
    requires Quiet(a, b) && Quiet(b, c)
    ensures Quiet(a, c)
  {
    forall n, k | n in c.partitions && k in c.partitions[n].earlyTerminations
      ensures c.partitions[n].earlyTerminations[k] <= SectorsAt(PartitionAt(a.partitions, n).earlyTerminations, k)
    {
      assert n in b.partitions;
      assert c.partitions[n].earlyTerminations[k] <= SectorsAt(b.partitions[n].earlyTerminations, k);
    }
  }

  lemma {:induction false} FaultsQuiet(d: Deadline, infos: Infos, request: Request, todo: set<nat>, block: nat)
    requires todo <= request.Keys && Deadlines.RecordFaults(d, infos, request, todo, block).Ok?
    ensures Quiet(d, Deadlines.RecordFaults(d, infos, request, todo, block).value)
    decreases todo
  {
    if todo != {} {
      var n := Least(todo);
      var d' := RecordFaultsOne(d, infos, n, request[n], block).value;
      QuietReplace(d, n, Partitions.RecordFaults(d.partitions[n], infos, request[n], block).value.0, d');
      FaultsQuiet(d', infos, request, todo - {n}, block);
      QuietTrans(d, d', Deadlines.RecordFaults(d, infos, request, todo, block).value);
    }
  }

  lemma {:induction false} RecoveriesQuiet(d: Deadline, infos: Infos, request: Request, todo: set<nat>)
    requires todo <= request.Keys && Deadlines.DeclareFaultsRecovered(d, infos, request, todo).Ok?
    ensures Quiet(d, Deadlines.DeclareFaultsRecovered(d, infos, request, todo).value)
    decreases todo
  {
    if todo != {} {
      var n := Least(todo);
      var d' := DeclareRecoveredOne(d, infos, n, request[n]).value;
      QuietReplace(d, n, Partitions.DeclareFaultsRecovered(d.partitions[n], request[n]), d');
      RecoveriesQuiet(d', infos, request, todo - {n});
      QuietTrans(d, d', Deadlines.DeclareFaultsRecovered(d, infos, request, todo).value);
    }
  }

  lemma {:induction false} ProvenQuiet(d: Deadline, infos: Infos, numbers: seq<nat>)
    requires RecoveriesKnown(d, infos) && RecordProven(d, infos, numbers).Ok?
    ensures Quiet(d, RecordProven(d, infos, numbers).value)
    decreases |numbers|
  {
    if numbers != [] {
      var d' := RecordProvenOne(d, infos, numbers[0]).value;
      QuietReplace(d, numbers[0], Partitions.Prove(d.partitions[numbers[0]], infos).value, d');
      ProvenQuiet(d', infos, numbers[1..]);
      QuietTrans(d, d', RecordProven(d, infos, numbers).value);
    }
  }

  lemma {:induction false} SameSectorsTrans(a: Deadline, b: Deadline, c: Deadline)
    requires SameSectors(a, b) && SameSectors(b, c)
    ensures SameSectors(a, c)
  {
  }

  lemma {:induction false} TerminateSame(d: Deadline, block: nat, infos: Infos, request: Request, todo: set<nat>)
    requires todo <= request.Keys && Deadlines.TerminateSectors(d, block, infos, request, todo).Ok?
    ensures SameSectors(d, Deadlines.TerminateSectors(d, block, infos, request, todo).value)
    decreases todo
  {
    if todo != {} {
      var n := Least(todo);
      var d' := TerminateOne(d, block, infos, n, request[n]).value;
      assert SameSectors(d, d');
      TerminateSame(d', block, infos, request, todo - {n});
      SameSectorsTrans(d, d', Deadlines.TerminateSectors(d, block, infos, request, todo).value);
    }
  }

  lemma {:induction false} ExpireSame(d: Deadline, numbers: seq<nat>, until: nat, d': Deadline)
    requires ExpireAll(d.partitions, numbers, until).Ok?
             && d'.partitions == ExpireAll(d.partitions, numbers, until).value.partitions
    ensures SameSectors(d, d')
    ensures ExpireAll(d.partitions, numbers, until).value.popped.early == {} ==> NoNewRecords(d, d')
    decreases |numbers|
  {
    if numbers != [] {
      var last := numbers[|numbers| - 1];
      var before := ExpireAll(d.partitions, numbers[..|numbers| - 1], until).value;
      var mid := d.(partitions := before.partitions);
      ExpireSame(d, numbers[..|numbers| - 1], until, mid);
      var (p, popped) := Partitions.PopExpiredSectors(before.partitions[last], until).value;
      ExpireLast(d, mid, last, p, popped.early, until, d');
    }
  }

  lemma {:induction false} ExpireLast(d: Deadline, mid: Deadline, n: nat, p: Partition, early: set<nat>, until: nat,
                                      d': Deadline)
    requires SameSectors(d, mid) && n in mid.partitions && p.sectors == mid.partitions[n].sectors
    requires p.earlyTerminations == mid.partitions[n].earlyTerminations[until := early]
    requires d'.partitions == mid.partitions[n := p]
    ensures SameSectors(d, d')
    ensures NoNewRecords(d, mid) && early == {} ==> NoNewRecords(d, d')
  {
  }

  lemma {:induction false} ExpiredSame(d: Deadline, until: nat, d': Deadline, expired: ExpirationSet)
    requires Deadlines.PopExpiredSectors(d, until) == Ok((d', expired))
    ensures SameSectors(d, d') && (expired.early == {} ==> NoNewRecords(d, d'))
  {
    var due := DueBlocks(d.expirationsBlocks, until);
    if due != {} { ExpireSame(d, Listed(d.expirationsBlocks, due), until, d'); }
  }

  lemma {:induction false} PopMarkedSame(d: Deadline, todo: set<nat>, maxPartitions: nat, maxSectors: nat,
                                         so: TerminationResult,
                                         r: (Deadline, TerminationResult))
    requires so.sectorsProcessed <= maxSectors && r == PopMarked(d, todo, maxPartitions, maxSectors, so)
    ensures SameSectors(d, r.0)
    decreases todo
  {
    if todo != {} {
      var n := Least(todo);
      if n !in d.partitions {
        PopMarkedSame(d.(earlyTerminations := d.earlyTerminations - {n}), todo - {n}, maxPartitions, maxSectors, so, r);
      } else {
        var max := maxSectors - so.sectorsProcessed;
        var result, d', so' := PopMarkedUnfold(d, n, todo, maxPartitions, maxSectors, so, r, max);
        assert SameSectors(d, d');
        if so'.BelowLimit(maxPartitions, maxSectors) {
          PopMarkedSame(d', todo - {n}, maxPartitions, maxSectors, so', r);
          SameSectorsTrans(d, d', r.0);
        }
      }
    }
  }

  /** A deadline without records stays without them. */
  lemma {:induction false} StillEmpty(d: Deadline, d': Deadline)
    requires PartItems(d.partitions) == {} && NoNewRecords(d, d')
    ensures PartItems(d'.partitions) == {}
  {
    forall n, x: (nat, nat) | n in d'.partitions ensures x !in Items(d'.partitions[n].earlyTerminations) {
      if n in d.partitions { ItemsInParts(d.partitions, n); }
      assert x.1 !in SectorsAt(PartitionAt(d.partitions, n).earlyTerminations, x.0) by {
        assert n in d.partitions ==> x !in Items(d.partitions[n].earlyTerminations);
      }
    }
  }

  lemma {:induction false} ItemsInParts(parts: Parts, n: nat)
    requires n in parts
    ensures Items(parts[n].earlyTerminations) <= PartItems(parts)
  {
  }

  // ---------- the provider's invariant ----------

  datatype World = World(infos: Infos, sp: Provider)

  ghost predicate DeadlinesValid(w: World, size: nat) {
    forall i :: 0 <= i < |w.sp.deadlines| ==> Valid(w.sp.deadlines[i], w.infos, size)
  }

  /** No sector is assigned to two deadlines. */
  ghost predicate OneDeadline(sp: Provider) {
    forall i, j, m, n ::
      0 <= i < |sp.deadlines| && 0 <= j < |sp.deadlines| && i != j && m in sp.deadlines[i].partitions
          && n in sp.deadlines[j].partitions
      ==> sp.deadlines[i].partitions[m].sectors !! sp.deadlines[j].partitions[n].sectors
  }

  ghost predicate MarksKept(sp: Provider) {
    && (forall i :: i in sp.earlyTerminations ==> i < |sp.deadlines|)
    && (forall i :: 0 <= i < |sp.deadlines| && i !in sp.earlyTerminations ==> ItemsOf(sp, i) == {})
  }

  ghost predicate Inv(w: World, size: nat) {
    DeadlinesValid(w, size) && OneDeadline(w.sp) && MarksKept(w.sp)
  }

  /** Records lie among the partition's sectors. */
  ghost predicate RecordsWithin(d: Deadline) {
    forall n, x :: n in d.partitions && x in Items(d.partitions[n].earlyTerminations) ==> x.1 in d.partitions[n].sectors
  }

  lemma {:induction false} ValidWithin(d: Deadline, infos: Infos, size: nat)
    requires Valid(d, infos, size)
    ensures RecordsWithin(d) && OnePartition(d.partitions) && Marked(d.partitions, d.earlyTerminations)
  {
    forall n, x | n in d.partitions && x in Items(d.partitions[n].earlyTerminations)
        ensures x.1 in d.partitions[n].sectors {
      assert PI.Valid(d.partitions[n], infos);
    }
  }

  lemma {:induction false} WithinPoppable(d: Deadline)
    requires RecordsWithin(d) && OnePartition(d.partitions) && Marked(d.partitions, d.earlyTerminations)
    ensures Poppable(d)
  {
  }

  lemma {:induction false} SeparateDeadlines(sp: Provider, i: nat, j: nat, x: (nat, nat), y: (nat, nat))
    requires OneDeadline(sp) && i < |sp.deadlines| && j < |sp.deadlines| && x in ItemsOf(sp, i) && y in ItemsOf(sp, j)
             && x.1 == y.1
    requires RecordsWithin(sp.deadlines[i]) && RecordsWithin(sp.deadlines[j])
    ensures i == j
  {
    var m :| m in sp.deadlines[i].partitions && x in Items(sp.deadlines[i].partitions[m].earlyTerminations);
    var n :| n in sp.deadlines[j].partitions && y in Items(sp.deadlines[j].partitions[n].earlyTerminations);
    assert x.1 in sp.deadlines[i].partitions[m].sectors && y.1 in sp.deadlines[j].partitions[n].sectors;
  }

  /** The invariant makes the provider's records poppable. */
  lemma {:induction false} InvSound(w: World, size: nat)
    requires Inv(w, size)
    ensures Sound(w.sp)
  {
    AllWithin(w, size);
    WithinSound(w.sp);
  }

  lemma {:induction false} AllWithin(w: World, size: nat)
    requires DeadlinesValid(w, size)
    ensures forall i :: 0 <= i < |w.sp.deadlines| ==> RecordsWithin(w.sp.deadlines[i]) && Poppable(w.sp.deadlines[i])
  {
    forall i | 0 <= i < |w.sp.deadlines| ensures RecordsWithin(w.sp.deadlines[i]) && Poppable(w.sp.deadlines[i]) {
      ValidWithin(w.sp.deadlines[i], w.infos, size);
      WithinPoppable(w.sp.deadlines[i]);
    }
  }

  lemma {:induction false} WithinSound(sp: Provider)
    requires OneDeadline(sp) && MarksKept(sp)
    requires forall i :: 0 <= i < |sp.deadlines| ==> RecordsWithin(sp.deadlines[i]) && Poppable(sp.deadlines[i])
    ensures Sound(sp)
  {
    forall i, j, x, y | 0 <= i < |sp.deadlines| && 0 <= j < |sp.deadlines| && x in ItemsOf(sp, i)
        && y in ItemsOf(sp, j) && x.1 == y.1
      ensures i == j
    {
      SeparateDeadlines(sp, i, j, x, y);
    }
  }

  lemma {:induction false} ReplaceValid(w: World, size: nat, i: nat, d: Deadline, marks: set<nat>)
    requires DeadlinesValid(w, size) && i < |w.sp.deadlines| && Valid(d, w.infos, size)
    ensures DeadlinesValid(World(w.infos, Provider(w.sp.deadlines[i := d], marks)), size)
  {
  }

  lemma {:induction false} ReplaceOne(sp: Provider, i: nat, d: Deadline, marks: set<nat>)
    requires OneDeadline(sp) && i < |sp.deadlines| && SameSectors(sp.deadlines[i], d)
    ensures OneDeadline(Provider(sp.deadlines[i := d], marks))
  {
  }

  lemma {:induction false} ReplaceMarks(sp: Provider, i: nat, d: Deadline, marks: set<nat>)
    requires MarksKept(sp) && i < |sp.deadlines| && forall j :: j in marks ==> j < |sp.deadlines|
    requires forall j :: 0 <= j < |sp.deadlines| && j != i && j !in marks ==> j !in sp.earlyTerminations
    requires i !in marks ==> PartItems(d.partitions) == {}
    ensures MarksKept(Provider(sp.deadlines[i := d], marks))
  {
    var sp' := Provider(sp.deadlines[i := d], marks);
    forall j | 0 <= j < |sp'.deadlines| && j !in marks ensures ItemsOf(sp', j) == {} {
      if j != i { assert ItemsOf(sp, j) == {}; }
    }
  }

  /** Replacing one deadline by a valid one with the same sectors, marked if it has records. */
  lemma {:induction false} ReplaceInv(w: World, size: nat, i: nat, d: Deadline, marks: set<nat>)
    requires Inv(w, size) && i < |w.sp.deadlines| && Valid(d, w.infos, size) && SameSectors(w.sp.deadlines[i], d)
    requires forall j :: j in marks ==> j < |w.sp.deadlines|
    requires forall j :: 0 <= j < |w.sp.deadlines| && j != i && j !in marks ==> j !in w.sp.earlyTerminations
    requires i !in marks ==> PartItems(d.partitions) == {}
    ensures Inv(World(w.infos, Provider(w.sp.deadlines[i := d], marks)), size)
  {
    ReplaceValid(w, size, i, d, marks);
    ReplaceOne(w.sp, i, d, marks);
    ReplaceMarks(w.sp, i, d, marks);
  }

  /** A quiet change of one deadline needs no new mark. */
  lemma {:induction false} QuietInv(w: World, size: nat, i: nat, d: Deadline)
    requires Inv(w, size) && i < |w.sp.deadlines| && Valid(d, w.infos, size) && Quiet(w.sp.deadlines[i], d)
    ensures Inv(World(w.infos, Provider(w.sp.deadlines[i := d], w.sp.earlyTerminations)), size)
  {
    if i !in w.sp.earlyTerminations {
      assert ItemsOf(w.sp, i) == {};
      StillEmpty(w.sp.deadlines[i], d);
    }
    ReplaceInv(w, size, i, d, w.sp.earlyTerminations);
  }

  // ---------- runs ----------

  datatype Op =
    | Register(info: SectorInfo)
    | Assign(i: nat, items: seq<SectorInfo>)
    | Faults(i: nat, request: Request, block: nat)
    | Recoveries(i: nat, request: Request)
    | Proof(i: nat, numbers: seq<nat>)
    | Missed(i: nat, n: nat, block: nat)
    | Terminate(i: nat, request: Request, block: nat)
    | Close(i: nat, until: nat)
    | PopEarly(maxPartitions: nat, maxSectors: nat)

  ghost function With(w: World, i: nat, r: Result<Deadline, Error>): World
    requires i < |w.sp.deadlines|
  {
    if r.Ok? then World(w.infos, Provider(w.sp.deadlines[i := r.value], w.sp.earlyTerminations)) else w
  }

  /** Sectors that are registered and in no deadline yet. */
  ghost predicate Unassigned(w: World, items: seq<SectorInfo>) {
    forall i :: 0 <= i < |w.sp.deadlines| ==> FreshItems(w.sp.deadlines[i].partitions, w.infos, items)
  }

  ghost function Closed(w: World, i: nat, r: Result<(Provider, ExpirationSet), Error>): World
    requires r.Ok? ==> i < |r.value.0.deadlines|
  {
    if r.Err? then w
    else World(w.infos, Provider(r.value.0.deadlines[i := r.value.0.deadlines[i].(posted := {})],
                                 r.value.0.earlyTerminations))
  }

  /** One operation on a provider.  A failed one is rolled back; closing a deadline also forgets which
      partitions were proven. */
  ghost function Step(w: World, size: nat, op: Op): World
    requires size > 0
  {
    match op
    case Register(info) => if info.number in w.infos then w else w.(infos := w.infos[info.number := info.expiration])
    case PopEarly(maxPartitions, maxSectors) =>
      var r := Providers.PopEarlyTerminations(w.sp, maxPartitions, maxSectors);
      if r.Ok? then w.(sp := r.value.0) else w
    case Terminate(i, request, block) =>
      var r := TerminateIn(w.sp, i, block, w.infos, request);
      if r.Ok? then w.(sp := r.value) else w
    case Close(i, until) => Closed(w, i, CloseDeadline(w.sp, i, until))
    case Assign(i, items) =>
      if i < |w.sp.deadlines| && Unassigned(w, items)
          then With(w, i, Deadlines.AddSectors(w.sp.deadlines[i], size, items)) else w
    case Faults(i, request, block) =>
      if i < |w.sp.deadlines| then With(w, i,
                                        Deadlines.RecordFaults(w.sp.deadlines[i], w.infos, request, request.Keys,
                                                               block)) else w
    case Recoveries(i, request) =>
      if i < |w.sp.deadlines| then With(w, i,
                                        Deadlines.DeclareFaultsRecovered(w.sp.deadlines[i], w.infos, request,
                                              request.Keys)) else w
    case Proof(i, numbers) =>
      if i < |w.sp.deadlines| && RecoveriesKnown(w.sp.deadlines[i], w.infos)
      then With(w, i, RecordProven(w.sp.deadlines[i], w.infos, numbers)) else w
    case Missed(i, n, block) =>
      if i < |w.sp.deadlines| && n in w.sp.deadlines[i].partitions
      then With(w, i, Ok(MissOne(w.sp.deadlines[i], w.infos, n, block))) else w
  }

  ghost function Run(deadlines: nat, size: nat, ops: seq<Op>): World
    requires size > 0
  {
    if ops == [] then World(map[], Provider(seq(deadlines, _ => FRESH_DEADLINE), {}))
    else Step(Run(deadlines, size, ops[..|ops| - 1]), size, ops[|ops| - 1])
  }

  lemma {:induction false} RegisterKeeps(w: World, size: nat, info: SectorInfo)
    requires Inv(w, size) && info.number !in w.infos
    ensures Inv(w.(infos := w.infos[info.number := info.expiration]), size)
  {
    var infos' := w.infos[info.number := info.expiration];
    forall i | 0 <= i < |w.sp.deadlines| ensures Valid(w.sp.deadlines[i], infos', size) {
      MoreInfos(w.sp.deadlines[i], w.infos, size, info);
    }
  }

  lemma {:induction false} MoreInfos(d: Deadline, infos: Infos, size: nat, info: SectorInfo)
    requires Valid(d, infos, size) && info.number !in infos
    ensures Valid(d, infos[info.number := info.expiration], size)
  {
    var infos' := infos[info.number := info.expiration];
    forall n | n in d.partitions ensures PI.Valid(d.partitions[n], infos') {
      assert PI.Valid(d.partitions[n], infos);
    }
    assert Shape(d.partitions, infos', size);
  }

  /** Filling puts only the given sectors into partitions and leaves their records alone. */
  ghost predicate GrowsBy(parts: Parts, parts': Parts, added: set<nat>) {
    && parts.Keys <= parts'.Keys
    && (forall n :: n in parts' ==> parts'[n].sectors <= PartitionAt(parts, n).sectors + added)
    && (forall n :: n in parts' ==> parts'[n].earlyTerminations == PartitionAt(parts, n).earlyTerminations)
  }

  lemma {:induction false} FillGrows(parts: Parts, idx: nat, size: nat, items: seq<SectorInfo>,
                                     r: Result<Filled, Error>)
    requires size > 0 && items != [] && r == Fill(parts, idx, size, items) && r.Ok?
    ensures GrowsBy(parts, r.value.partitions, Numbers(items))
    decreases |items|, |KeysFrom(parts, idx)|
  {
    var p := PartitionAt(parts, idx);
    if |p.sectors| >= size {
      FillSkips(parts, idx, size, items, p, r);
      FillGrows(parts[idx := p], idx + 1, size, items, r);
      GrowsTrans(parts, parts[idx := p], r.value.partitions, {}, Numbers(items));
    } else {
      var n := Room(p, size, items);
      var added := Partitions.AddSectors(p, items[..n]);
      var more := FillTakes(parts, idx, size, items, p, n, added, r);
      AddedSectors(p, items[..n], added.value);
      GrowOne(parts, idx, added.value, Numbers(items[..n]));
      if n == |items| {
        assert items[..n] == items;
      } else {
        FillGrows(parts[idx := added.value], idx, size, items[n..], more);
        NumbersOfParts(items, n);
        GrowsTrans(parts, parts[idx := added.value], r.value.partitions, Numbers(items[..n]), Numbers(items[n..]));
      }
    }
  }

  lemma {:induction false} AddedSectors(p: Partition, items: seq<SectorInfo>, p': Partition)
    requires Partitions.AddSectors(p, items) == Ok(p')
    ensures p'.sectors == p.sectors + Numbers(items) && p'.earlyTerminations == p.earlyTerminations
  {
  }

  lemma {:induction false} GrowOne(parts: Parts, idx: nat, p: Partition, added: set<nat>)
    requires p.sectors == PartitionAt(parts, idx).sectors + added
    requires p.earlyTerminations == PartitionAt(parts, idx).earlyTerminations
    ensures GrowsBy(parts, parts[idx := p], added)
  {
  }

  lemma {:induction false} NumbersOfParts(items: seq<SectorInfo>, n: nat)
    requires n <= |items|
    ensures Numbers(items[..n]) + Numbers(items[n..]) == Numbers(items)
  {
    assert items == items[..n] + items[n..];
  }

  lemma {:induction false} GrowsTrans(a: Parts, b: Parts, c: Parts, x: set<nat>, y: set<nat>)
    requires GrowsBy(a, b, x) && GrowsBy(b, c, y)
    ensures GrowsBy(a, c, x + y)
  {
    forall n | n in c
      ensures c[n].sectors <= PartitionAt(a, n).sectors + (x + y)
      ensures c[n].earlyTerminations == PartitionAt(a, n).earlyTerminations
    {
      if n !in b { assert PartitionAt(b, n) == EMPTY_PARTITION == PartitionAt(a, n); }
    }
  }

  lemma {:induction false} AssignOne(w: World, i: nat, items: seq<SectorInfo>, d: Deadline, marks: set<nat>)
    requires OneDeadline(w.sp) && i < |w.sp.deadlines| && Unassigned(w, items)
    requires GrowsBy(w.sp.deadlines[i].partitions, d.partitions, Numbers(items))
    ensures OneDeadline(Provider(w.sp.deadlines[i := d], marks))
  {
    var sp := w.sp;
    forall j, m, n | 0 <= j < |sp.deadlines| && j != i && m in d.partitions && n in sp.deadlines[j].partitions
      ensures d.partitions[m].sectors !! sp.deadlines[j].partitions[n].sectors
    {
      DI.NumbersElsewhere(sp.deadlines[j].partitions, w.infos, items, n);
      assert m in sp.deadlines[i].partitions || PartitionAt(sp.deadlines[i].partitions, m).sectors == {};
    }
  }

  lemma {:induction false} AssignKeeps(w: World, size: nat, i: nat, items: seq<SectorInfo>)
    requires Inv(w, size) && i < |w.sp.deadlines| && Unassigned(w, items) && size > 0
    ensures Deadlines.AddSectors(w.sp.deadlines[i], size, items).Ok?
    ensures Inv(With(w, i, Deadlines.AddSectors(w.sp.deadlines[i], size, items)), size)
  {
    var d := w.sp.deadlines[i];
    assert Valid(d, w.infos, size) && FreshItems(d.partitions, w.infos, items);
    DI.AddKeeps(d, w.infos, size, items);
    var d' := Deadlines.AddSectors(d, size, items).value;
    AddGrows(d, size, items, d');
    AssignApplied(w, size, i, items, d');
  }

  lemma {:induction false} AddGrows(d: Deadline, size: nat, items: seq<SectorInfo>, d': Deadline)
    requires size > 0 && Deadlines.AddSectors(d, size, items) == Ok(d')
    ensures GrowsBy(d.partitions, d'.partitions, Numbers(items))
  {
    if items != [] {
      FillGrows(d.partitions, LastIndex(d.partitions), size, items,
                Fill(d.partitions, LastIndex(d.partitions), size, items));
    }
  }

  lemma {:induction false} AssignApplied(w: World, size: nat, i: nat, items: seq<SectorInfo>, d: Deadline)
    requires Inv(w, size) && i < |w.sp.deadlines| && Unassigned(w, items) && Valid(d, w.infos, size)
    requires GrowsBy(w.sp.deadlines[i].partitions, d.partitions, Numbers(items))
    ensures Inv(World(w.infos, Provider(w.sp.deadlines[i := d], w.sp.earlyTerminations)), size)
  {
    var marks := w.sp.earlyTerminations;
    ReplaceValid(w, size, i, d, marks);
    AssignOne(w, i, items, d, marks);
    if i !in marks {
      assert ItemsOf(w.sp, i) == {};
      StillEmpty(w.sp.deadlines[i], d);
    }
    ReplaceMarks(w.sp, i, d, marks);
  }

  lemma {:induction false} MissedKeeps(w: World, size: nat, i: nat, n: nat, block: nat)
    requires Inv(w, size) && i < |w.sp.deadlines| && n in w.sp.deadlines[i].partitions
    ensures Inv(With(w, i, Ok(MissOne(w.sp.deadlines[i], w.infos, n, block))), size)
  {
    var d := w.sp.deadlines[i];
    assert Valid(d, w.infos, size);
    var p := MissedPartition(d, w.infos, size, n, block);
    MissOneIs(d, w.infos, n, block, p);
    if n !in d.posted {
      MissedApplied(w, size, i, n, p);
    } else {
      assert w.sp.deadlines[i := d] == w.sp.deadlines;
    }
  }

  lemma {:induction false} MissedPartition(d: Deadline, infos: Infos, size: nat, n: nat, block: nat)
      returns (p: Partition)
    requires Valid(d, infos, size) && n in d.partitions
    ensures var r := Partitions.RecordFaults(d.partitions[n], infos, d.partitions[n].sectors, block);
            r.Ok? && r.value.0 == p
    ensures p.sectors == d.partitions[n].sectors && p.earlyTerminations == d.partitions[n].earlyTerminations
    ensures Valid(d.(partitions := d.partitions[n := p]), infos, size)
  {
    DI.MissedKeeps(d, infos, size, n, block);
    p := Partitions.RecordFaults(d.partitions[n], infos, d.partitions[n].sectors, block).value.0;
  }

  lemma {:induction false} MissedApplied(w: World, size: nat, i: nat, n: nat, p: Partition)
    requires Inv(w, size) && i < |w.sp.deadlines| && n in w.sp.deadlines[i].partitions
    requires p.sectors == w.sp.deadlines[i].partitions[n].sectors
    requires p.earlyTerminations == w.sp.deadlines[i].partitions[n].earlyTerminations
    requires Valid(w.sp.deadlines[i].(partitions := w.sp.deadlines[i].partitions[n := p]), w.infos, size)
    ensures var d := w.sp.deadlines[i].(partitions := w.sp.deadlines[i].partitions[n := p]);
            Inv(World(w.infos, Provider(w.sp.deadlines[i := d], w.sp.earlyTerminations)), size)
  {
    var d := w.sp.deadlines[i].(partitions := w.sp.deadlines[i].partitions[n := p]);
    QuietReplace(w.sp.deadlines[i], n, p, d);
    QuietInv(w, size, i, d);
  }

  lemma {:induction false} TerminateKeeps(w: World, size: nat, i: nat, request: Request, block: nat)
    requires Inv(w, size) && TerminateIn(w.sp, i, block, w.infos, request).Ok?
    ensures Inv(w.(sp := TerminateIn(w.sp, i, block, w.infos, request).value), size)
  {
    var d := w.sp.deadlines[i];
    assert Valid(d, w.infos, size);
    DI.TerminateKeeps(d, w.infos, size, block, request, request.Keys);
    TerminateSame(d, block, w.infos, request, request.Keys);
    ReplaceInv(w, size, i, Deadlines.TerminateSectors(d, block, w.infos, request, request.Keys).value,
               w.sp.earlyTerminations + {i});
  }

  lemma {:induction false} ForgetPosted(d: Deadline, infos: Infos, size: nat)
    requires Valid(d, infos, size)
    ensures Valid(d.(posted := {}), infos, size)
  {
    assert Shape(d.(posted := {}).partitions, infos, size);
  }

  lemma {:induction false} ExpiredClosed(d: Deadline, infos: Infos, size: nat, until: nat, d': Deadline,
                                         expired: ExpirationSet)
    requires Valid(d, infos, size) && Deadlines.PopExpiredSectors(d, until) == Ok((d', expired))
    ensures Valid(d'.(posted := {}), infos, size) && SameSectors(d, d'.(posted := {}))
    ensures expired.early == {} ==> NoNewRecords(d, d'.(posted := {}))
  {
    DI.ExpiredKeeps(d, infos, size, until);
    ExpiredSame(d, until, d', expired);
    ForgetPosted(d', infos, size);
  }

  lemma {:induction false} CloseKeeps(w: World, size: nat, i: nat, until: nat)
    requires Inv(w, size) && CloseDeadline(w.sp, i, until).Ok? && size > 0
    ensures Inv(Closed(w, i, CloseDeadline(w.sp, i, until)), size)
  {
    var d := w.sp.deadlines[i];
    assert Valid(d, w.infos, size);
    var (d', expired) := Deadlines.PopExpiredSectors(d, until).value;
    ExpiredClosed(d, w.infos, size, until, d', expired);
    CloseApplied(w, size, i, d'.(posted := {}), expired.early != {});
    var sp' := CloseDeadline(w.sp, i, until).value.0;
    assert sp'.deadlines[i := d'.(posted := {})] == w.sp.deadlines[i := d'.(posted := {})];
  }

  lemma {:induction false} CloseApplied(w: World, size: nat, i: nat, d: Deadline, early: bool)
    requires Inv(w, size) && i < |w.sp.deadlines| && Valid(d, w.infos, size)
    requires SameSectors(w.sp.deadlines[i], d) && (!early ==> NoNewRecords(w.sp.deadlines[i], d))
    ensures Inv(World(w.infos, Provider(w.sp.deadlines[i := d],
                                        if early then w.sp.earlyTerminations + {i} else w.sp.earlyTerminations)), size)
  {
    var marks := if early then w.sp.earlyTerminations + {i} else w.sp.earlyTerminations;
    if i !in marks {
      assert ItemsOf(w.sp, i) == {};
      StillEmpty(w.sp.deadlines[i], d);
    }
    ReplaceInv(w, size, i, d, marks);
  }

  // ---------- popping keeps the invariant ----------

  lemma {:induction false} PopDeadlinesKeeps(w: World, size: nat, todo: set<nat>, maxPartitions: nat, maxSectors: nat,
                                             so: TerminationResult,
                                             r: Result<(Provider, TerminationResult), Error>)
    requires Inv(w, size) && so.partitionsProcessed <= maxPartitions && so.sectorsProcessed <= maxSectors
    requires r == PopDeadlines(w.sp, todo, maxPartitions, maxSectors, so) && r.Ok?
    ensures Inv(World(w.infos, r.value.0), size)
    decreases todo
  {
    if todo == {} {
      assert r.value.0 == w.sp;
    } else {
      var i := Least(todo);
      var leftPartitions, leftSectors := maxPartitions - so.partitionsProcessed, maxSectors - so.sectorsProcessed;
      var result, sp', so' := PopDeadlinesUnfold(w.sp, i, todo, maxPartitions, maxSectors, so, r, leftPartitions,
                                                 leftSectors);
      DeadlinePopKeeps(w, size, i, leftPartitions, leftSectors, sp');
      if so'.BelowLimit(maxPartitions, maxSectors) {
        PopDeadlinesKeeps(World(w.infos, sp'), size, todo - {i}, maxPartitions, maxSectors, so', r);
      }
    }
  }

  lemma {:induction false} DeadlinePopKeeps(w: World, size: nat, i: nat, maxPartitions: nat, maxSectors: nat,
                                            sp': Provider)
    requires Inv(w, size) && i < |w.sp.deadlines| && sp' == AfterDeadlinePop(w.sp, i, maxPartitions, maxSectors)
    ensures Inv(World(w.infos, sp'), size)
  {
    var d := w.sp.deadlines[i];
    var r := Deadlines.PopEarlyTerminations(d, maxPartitions, maxSectors);
    PoppedDeadline(d, w.infos, size, maxPartitions, maxSectors, r);
    var marks := if r.2 then w.sp.earlyTerminations else w.sp.earlyTerminations - {i};
    PopRecords(w, size, i, maxPartitions, maxSectors, r);
    ReplaceInv(w, size, i, r.0, marks);
  }

  lemma {:induction false} PoppedDeadline(d: Deadline, infos: Infos, size: nat, maxPartitions: nat, maxSectors: nat,
                                          r: (Deadline, TerminationResult, bool))
    requires Valid(d, infos, size) && r == Deadlines.PopEarlyTerminations(d, maxPartitions, maxSectors)
    ensures Valid(r.0, infos, size) && SameSectors(d, r.0)
  {
    DI.PopMarkedKeeps(d, infos, size, d.earlyTerminations, maxPartitions, maxSectors, NO_TERMINATIONS, (r.0, r.1));
    PopMarkedSame(d, d.earlyTerminations, maxPartitions, maxSectors, NO_TERMINATIONS, (r.0, r.1));
  }

  lemma {:induction false} PopRecords(w: World, size: nat, i: nat, maxPartitions: nat, maxSectors: nat,
                                      r: (Deadline, TerminationResult, bool))
    requires Inv(w, size) && i < |w.sp.deadlines|
             && r == Deadlines.PopEarlyTerminations(w.sp.deadlines[i], maxPartitions, maxSectors)
    requires Valid(r.0, w.infos, size)
    ensures !r.2 || i !in w.sp.earlyTerminations ==> PartItems(r.0.partitions) == {}
  {
    if !r.2 {
      ValidWithin(r.0, w.infos, size);
      UnmarkedEmpty(r.0.partitions);
    } else if i !in w.sp.earlyTerminations {
      assert ItemsOf(w.sp, i) == {};
      var d := w.sp.deadlines[i];
      PopMarkedShrinks(d, d.earlyTerminations, maxPartitions, maxSectors, NO_TERMINATIONS, (r.0, r.1));
      ShrunkEmpty(d, r.0);
    }
  }

  lemma {:induction false} ShrunkEmpty(d: Deadline, d': Deadline)
    requires Shrinks(d, d') && PartItems(d.partitions) == {}
    ensures PartItems(d'.partitions) == {}
  {
    forall n, x: (nat, nat) | n in d'.partitions ensures x !in Items(d'.partitions[n].earlyTerminations) {
      if n in d.partitions { ItemsInParts(d.partitions, n); }
      assert !Outstanding(d, Sector(n, x.0, x.1)) && !Outstanding(d', Sector(n, x.0, x.1));
    }
  }

  /** Every operation keeps the invariant. */
  lemma {:induction false} StepKeeps(w: World, size: nat, op: Op)
    requires Inv(w, size) && size > 0
    ensures Inv(Step(w, size, op), size)
  {
    match op
    case Register(info) => if info.number !in w.infos { RegisterKeeps(w, size, info); }
    case PopEarly(maxPartitions, maxSectors) =>
      var r := Providers.PopEarlyTerminations(w.sp, maxPartitions, maxSectors);
      if w.sp.earlyTerminations != {} && r.Ok? {
        PopDeadlinesKeeps(w, size, w.sp.earlyTerminations, maxPartitions, maxSectors, NO_TERMINATIONS, r);
      }
    case Terminate(i, request, block) =>
      if TerminateIn(w.sp, i, block, w.infos, request).Ok? { TerminateKeeps(w, size, i, request, block); }
    case Close(i, until) => if CloseDeadline(w.sp, i, until).Ok? { CloseKeeps(w, size, i, until); }
    case Assign(i, items) => if i < |w.sp.deadlines| && Unassigned(w, items) { AssignKeeps(w, size, i, items); }
    case Faults(i, request, block) => if i < |w.sp.deadlines| { FaultsKeep(w, size, i, request, block); }
    case Recoveries(i, request) => if i < |w.sp.deadlines| { RecoveriesKeep(w, size, i, request); }
    case Proof(i, numbers) => if i < |w.sp.deadlines| { ProofKeeps(w, size, i, numbers); }
    case Missed(i, n, block) =>
      if i < |w.sp.deadlines| && n in w.sp.deadlines[i].partitions { MissedKeeps(w, size, i, n, block); }
  }

  lemma {:induction false} FaultsKeep(w: World, size: nat, i: nat, request: Request, block: nat)
    requires Inv(w, size) && i < |w.sp.deadlines|
    ensures Inv(With(w, i, Deadlines.RecordFaults(w.sp.deadlines[i], w.infos, request, request.Keys, block)), size)
  {
    var d := w.sp.deadlines[i];
    var r := Deadlines.RecordFaults(d, w.infos, request, request.Keys, block);
    if r.Ok? {
      assert Valid(d, w.infos, size);
      DI.FaultsKeep(d, w.infos, size, request, request.Keys, block);
      FaultsQuiet(d, w.infos, request, request.Keys, block);
      QuietInv(w, size, i, r.value);
    }
  }

  lemma {:induction false} RecoveriesKeep(w: World, size: nat, i: nat, request: Request)
    requires Inv(w, size) && i < |w.sp.deadlines|
    ensures Inv(With(w, i, Deadlines.DeclareFaultsRecovered(w.sp.deadlines[i], w.infos, request, request.Keys)), size)
  {
    var d := w.sp.deadlines[i];
    var r := Deadlines.DeclareFaultsRecovered(d, w.infos, request, request.Keys);
    if r.Ok? {
      assert Valid(d, w.infos, size);
      DI.RecoveriesKeep(d, w.infos, size, request, request.Keys);
      RecoveriesQuiet(d, w.infos, request, request.Keys);
      QuietInv(w, size, i, r.value);
    }
  }

  lemma {:induction false} ProofKeeps(w: World, size: nat, i: nat, numbers: seq<nat>)
    requires Inv(w, size) && i < |w.sp.deadlines|
    ensures RecoveriesKnown(w.sp.deadlines[i], w.infos)
    ensures Inv(With(w, i, RecordProven(w.sp.deadlines[i], w.infos, numbers)), size)
  {
    var d := w.sp.deadlines[i];
    assert Valid(d, w.infos, size);
    DI.ProvenKeeps(d, w.infos, size, numbers);
    var r := RecordProven(d, w.infos, numbers);
    if r.Ok? {
      ProvenQuiet(d, w.infos, numbers);
      QuietInv(w, size, i, r.value);
    }
  }

  /** Every reachable provider satisfies the invariant. */
  lemma {:induction false} RunKeeps(deadlines: nat, size: nat, ops: seq<Op>)
    requires size > 0
    ensures Inv(Run(deadlines, size, ops), size)
  {
    if ops == [] {
      assert Valid(FRESH_DEADLINE, map[], size) && PartItems(FRESH_DEADLINE.partitions) == {};
    } else {
      RunKeeps(deadlines, size, ops[..|ops| - 1]);
      StepKeeps(Run(deadlines, size, ops[..|ops| - 1]), size, ops[|ops| - 1]);
    }
  }

  /** As many partitions as the sectors need, all but the last full, and both counters exact. */
  ghost predicate Counted(d: Deadline, size: nat)
    requires size > 0
  {
    && Contiguous(d.partitions) && FilledInOrder(d.partitions, size)
    && |d.partitions| == (d.totalSectors + size - 1) / size
    && d.totalSectors == SectorCount(d.partitions, |d.partitions|)
    && d.liveSectors == LiveCount(d.partitions, |d.partitions|)
  }

  lemma {:induction false} ValidCounted(d: Deadline, infos: Infos, size: nat)
    requires Valid(d, infos, size)
    ensures Counted(d, size)
  {
    DI.PartitionCount(d, infos, size);
  }

  /** In every run each deadline has as many partitions as its sectors need, all but the last full. */
  lemma {:induction false} RunCounts(deadlines: nat, size: nat, ops: seq<Op>, i: nat)
    requires size > 0 && i < |Run(deadlines, size, ops).sp.deadlines|
    ensures Counted(Run(deadlines, size, ops).sp.deadlines[i], size)
  {
    RunKeeps(deadlines, size, ops);
    InvCounted(Run(deadlines, size, ops), size, i);
  }

  lemma {:induction false} InvCounted(w: World, size: nat, i: nat)
    requires size > 0 && Inv(w, size) && i < |w.sp.deadlines|
    ensures Counted(w.sp.deadlines[i], size)
  {
    ValidCounted(w.sp.deadlines[i], w.infos, size);
  }

  /** No sector is recorded under two blocks or in two places. */
  ghost predicate RecordedOnce(items: set<(nat, nat)>) {
    forall x, y :: x in items && y in items && x.1 == y.1 ==> x == y
  }

  /** Each deadline's records lie within its partitions, and each partition's within disjoint blocks. */
  ghost predicate Filed(d: Deadline) {
    RecordsWithin(d) && OnePartition(d.partitions)
        && forall n :: n in d.partitions ==> PI.TerminationsTidy(d.partitions[n])
  }

  lemma {:induction false} ValidFiled(d: Deadline, infos: Infos, size: nat)
    requires Valid(d, infos, size)
    ensures Filed(d)
  {
    ValidWithin(d, infos, size);
    forall n | n in d.partitions ensures PI.TerminationsTidy(d.partitions[n]) { assert PI.Valid(d.partitions[n],
          infos); }
  }

  lemma {:induction false} OneRecordIn(d: Deadline, x: (nat, nat), y: (nat, nat))
    requires Filed(d) && x in PartItems(d.partitions) && y in PartItems(d.partitions) && x.1 == y.1
    ensures x == y
  {
    var m :| m in d.partitions && x in Items(d.partitions[m].earlyTerminations);
    var n :| n in d.partitions && y in Items(d.partitions[n].earlyTerminations);
    assert x.1 in d.partitions[m].sectors && y.1 in d.partitions[n].sectors;
    assert PI.TerminationsTidy(d.partitions[m]);
  }

  lemma {:induction false} OneRecordOf(sp: Provider, x: (nat, nat), y: (nat, nat))
    requires OneDeadline(sp) && (forall i :: 0 <= i < |sp.deadlines| ==> Filed(sp.deadlines[i]))
    requires x in AllItems(sp) && y in AllItems(sp) && x.1 == y.1
    ensures x == y
  {
    var i :| 0 <= i < |sp.deadlines| && x in ItemsOf(sp, i);
    var j :| 0 <= j < |sp.deadlines| && y in ItemsOf(sp, j);
    SeparateDeadlines(sp, i, j, x, y);
    OneRecordIn(sp.deadlines[i], x, y);
  }

  lemma {:induction false} OneRecord(w: World, size: nat)
    requires Inv(w, size)
    ensures RecordedOnce(AllItems(w.sp))
  {
    forall i | 0 <= i < |w.sp.deadlines|
        ensures Filed(w.sp.deadlines[i]) { ValidFiled(w.sp.deadlines[i], w.infos, size); }
    forall x, y | x in AllItems(w.sp) && y in AllItems(w.sp) && x.1 == y.1 ensures x == y { OneRecordOf(w.sp, x, y); }
  }

  /** In every run, any series of pops with positive limits returns each recorded sector at most once, under
      its block, and leaves exactly the others on record. */
  lemma {:induction false} RunPopsOnce(deadlines: nat, size: nat, ops: seq<Op>, limits: seq<(nat, nat)>)
    requires size > 0 && Positive(limits)
    ensures var sp := Run(deadlines, size, ops).sp;
            RecordedOnce(AllItems(sp)) && Conserved(AllItems(sp), Drain(sp, limits))
  {
    RunKeeps(deadlines, size, ops);
    InvSound(Run(deadlines, size, ops), size);
    OneRecord(Run(deadlines, size, ops), size);
    DrainConserves(Run(deadlines, size, ops).sp, limits, Drain(Run(deadlines, size, ops).sp, limits));
  }

  /** In every run, enough pops with positive limits return exactly the early terminations on record. */
  lemma {:induction false} RunDrains(deadlines: nat, size: nat, ops: seq<Op>, limits: seq<(nat, nat)>)
    requires size > 0 && Positive(limits) && |limits| >= |Tasks(Run(deadlines, size, ops).sp)|
    ensures var sp := Run(deadlines, size, ops).sp;
            Drain(sp, limits).1 == AllItems(sp) && Drain(sp, limits).2 == |AllItems(sp)|
                && AllItems(Drain(sp, limits).0) == {}
  {
    RunKeeps(deadlines, size, ops);
    InvSound(Run(deadlines, size, ops), size);
    DrainCompletes(Run(deadlines, size, ops).sp, limits);
  }
}
