/** What an accepted call does to a deadline: to each partition it names, to the others, and to the index
    of blocks at which partitions have something due. */
module DeadlineEffects {
  import opened Arith
  import opened Results
  import opened ExpirationQueue
  import opened Partitions
  import opened Deadlines
  import opened DeadlineSpec
  import opened DeadlineExact
  import DI = DeadlineInvariant
  import PI = PartitionInvariant
  import PE = PartitionEffects

  // ---------- faults ----------

  /** The block is listed for n in place of n's first entry, and no other entry has changed. */
  ghost predicate Relisted(blocks: map<nat, nat>, blocks': map<nat, nat>, n: nat, block: nat) {
    && block in blocks' && blocks'[block] == n
    && forall b :: b != block ==>
         && (b in blocks' <==> b in blocks && !(blocks[b] == n && FirstFor(blocks, n, b)))
         && (b in blocks' ==> blocks'[b] == blocks[b])
  }

  ghost predicate FirstFor(blocks: map<nat, nat>, n: nat, b: nat) {
    forall c :: c in blocks && blocks[c] == n ==> b <= c
  }

  lemma {:induction false} MoveBlockRelists(blocks: map<nat, nat>, n: nat, block: nat)
    ensures Relisted(blocks, MoveBlock(blocks, n, block), n, block)
  {
    var entries := set b | b in blocks && blocks[b] == n;
    assert forall c :: c in entries <==> c in blocks && blocks[c] == n;
    if entries != {} {
      var first := Least(entries);
      assert forall b :: b in entries ==> (FirstFor(blocks, n, b) <==> b == first);
    }
  }

  /** b was the first block listed for its partition when that partition's turn came.  An entry for the fault
      block itself is out of the way once a lower partition of the request has been listed there. */
  ghost predicate Displaced(blocks: map<nat, nat>, todo: set<nat>, block: nat, b: nat)
    requires b in blocks
  {
    && blocks[b] in todo
    && forall c :: c in blocks && blocks[c] == blocks[b] && c < b ==>
         c == block && exists m :: m in todo && m < blocks[b]
  }

  /** The index after the partitions of todo were declared faulty for the block: the last of them is listed
      there, each has lost the first of its other entries, and every other entry is as before. */
  ghost predicate RelistedAll(blocks: map<nat, nat>, blocks': map<nat, nat>, todo: set<nat>, block: nat) {
    && (todo == {} ==> blocks' == blocks)
    && (todo != {} ==> block in blocks' && blocks'[block] in todo && forall n :: n in todo ==> n <= blocks'[block])
    && forall b :: b != block ==>
         && (b in blocks' <==> b in blocks && !Displaced(blocks, todo, block, b))
         && (b in blocks' ==> blocks'[b] == blocks[b])
  }

  lemma {:induction false} RelistStep(blocks: map<nat, nat>, blocks1: map<nat, nat>, blocks': map<nat, nat>,
                                      todo: set<nat>, n: nat, block: nat)
    requires n in todo && (forall m :: m in todo ==> n <= m)
    requires Relisted(blocks, blocks1, n, block) && RelistedAll(blocks1, blocks', todo - {n}, block)
    ensures RelistedAll(blocks, blocks', todo, block)
  {
    assert forall m :: m in todo ==> m == n || m in todo - {n};
    forall b | b != block
      ensures b in blocks' <==> b in blocks && !Displaced(blocks, todo, block, b)
      ensures b in blocks' ==> blocks'[b] == blocks[b]
    {
      if b in blocks { DisplacedStep(blocks, blocks1, todo, n, block, b); }
    }
  }

  lemma {:induction false} DisplacedStep(blocks: map<nat, nat>, blocks1: map<nat, nat>, todo: set<nat>, n: nat,
                                         block: nat, b: nat)
    requires n in todo && (forall m :: m in todo ==> n <= m)
    requires Relisted(blocks, blocks1, n, block) && b in blocks && b != block
    ensures Displaced(blocks, todo, block, b) <==> b !in blocks1 || Displaced(blocks1, todo - {n}, block, b)
  {
    if blocks[b] == n {
      assert Displaced(blocks, todo, block, b) <==> FirstFor(blocks, n, b);
    } else {
      assert b in blocks1;
      forall c | c != block && c in blocks && blocks[c] == blocks[b] ensures c in blocks1 && blocks1[c] == blocks[c] { }
      assert forall c :: c in blocks1 && blocks1[c] == blocks[b] ==> c != block && c in blocks;
    }
  }

  /** What an accepted fault declaration does. */
  ghost predicate FaultsDeclared(d: Deadline, d': Deadline, infos: Infos, request: Request, todo: set<nat>, block: nat)
    requires todo <= request.Keys
  {
    && d' == d.(partitions := d'.partitions, expirationsBlocks := d'.expirationsBlocks)
    && Untouched(d.partitions, d'.partitions, todo)
    && (forall n :: n in todo ==>
          && n in d.partitions && n in d'.partitions
          && PE.Faulted(d.partitions[n], d'.partitions[n], infos, request[n], block))
    && RelistedAll(d.expirationsBlocks, d'.expirationsBlocks, todo, block)
  }

  lemma {:induction false} FaultOneDeclares(d: Deadline, infos: Infos, size: nat, n: nat, numbers: set<nat>,
                                            block: nat, d': Deadline)
    requires Valid(d, infos, size) && RecordFaultsOne(d, infos, n, numbers, block) == Ok(d')
    ensures Untouched(d.partitions, d'.partitions, {n})
    ensures d' == d.(partitions := d'.partitions, expirationsBlocks := d'.expirationsBlocks)
    ensures n in d.partitions && PE.Faulted(d.partitions[n], d'.partitions[n], infos, numbers, block)
    ensures Relisted(d.expirationsBlocks, d'.expirationsBlocks, n, block)
  {
    var p' := FaultOneIs(d, infos, n, numbers, block, d');
    PartitionValid(d, infos, size, n);
    PE.DeclaringFaults(d.partitions[n], infos, numbers, block, p');
    MoveBlockRelists(d.expirationsBlocks, n, block);
  }

  lemma {:induction false} PartitionValid(d: Deadline, infos: Infos, size: nat, n: nat)
    requires Valid(d, infos, size) && n in d.partitions
    ensures PI.Valid(d.partitions[n], infos)
  {
  }

  lemma {:induction false} FaultOneIs(d: Deadline, infos: Infos, n: nat, numbers: set<nat>, block: nat, d': Deadline)
      returns (p': Partition)
    requires RecordFaultsOne(d, infos, n, numbers, block) == Ok(d')
    ensures n in d.partitions && d' == d.(partitions := d.partitions[n := p'],
                                          expirationsBlocks := MoveBlock(d.expirationsBlocks, n, block))
    ensures var r := Partitions.RecordFaults(d.partitions[n], infos, numbers, block); r.Ok? && r.value.0 == p'
  {
    p' := d'.partitions[n];
  }

  /** An accepted fault declaration makes exactly the named live sectors faulty, in the partitions named for
      them, and reschedules those that were not faulty yet. */
  lemma {:induction false} FaultsEffect(d: Deadline, infos: Infos, size: nat, request: Request, todo: set<nat>,
                                        block: nat, d': Deadline)
    requires Valid(d, infos, size) && todo <= request.Keys
    requires Deadlines.RecordFaults(d, infos, request, todo, block) == Ok(d')
    ensures FaultsDeclared(d, d', infos, request, todo, block)
    decreases todo
  {
    if todo != {} {
      var n := Least(todo);
      var d1 := RecordFaultsOne(d, infos, n, request[n], block).value;
      DI.FaultOneKeeps(d, infos, size, n, request[n], block);
      FaultOneDeclares(d, infos, size, n, request[n], block, d1);
      FaultsEffect(d1, infos, size, request, todo - {n}, block, d');
      RelistStep(d.expirationsBlocks, d1.expirationsBlocks, d'.expirationsBlocks, todo, n, block);
      FaultsJoin(d, d1, d', infos, request, todo, n, block);
    }
  }

  lemma {:induction false} FaultsJoin(d: Deadline, d1: Deadline, d': Deadline, infos: Infos, request: Request,
                                      todo: set<nat>, n: nat, block: nat)
    requires todo <= request.Keys && n in todo && n in d.partitions && Untouched(d.partitions, d1.partitions, {n})
    requires d1 == d.(partitions := d1.partitions, expirationsBlocks := d1.expirationsBlocks)
    requires PE.Faulted(d.partitions[n], d1.partitions[n], infos, request[n], block)
    requires FaultsDeclared(d1, d', infos, request, todo - {n}, block)
    requires RelistedAll(d.expirationsBlocks, d'.expirationsBlocks, todo, block)
    ensures FaultsDeclared(d, d', infos, request, todo, block)
  {
    forall m | m in todo
      ensures m in d.partitions && m in d'.partitions
      ensures PE.Faulted(d.partitions[m], d'.partitions[m], infos, request[m], block)
    {
      assert m != n ==> m in todo - {n} && d1.partitions[m] == d.partitions[m];
    }
  }

  // ---------- recoveries ----------

  ghost predicate RecoveriesDeclared(d: Deadline, d': Deadline, request: Request, todo: set<nat>)
    requires todo <= request.Keys
  {
    && d' == d.(partitions := d'.partitions) && Untouched(d.partitions, d'.partitions, todo)
    && forall n :: n in todo ==>
         && n in d.partitions && n in d'.partitions
         && d'.partitions[n] == d.partitions[n].(recoveries := d.partitions[n].recoveries + request[n])
  }

  /** An accepted declaration adds exactly the named sectors to those recovering in their partitions. */
  lemma {:induction false} RecoveriesEffect(d: Deadline, infos: Infos, request: Request, todo: set<nat>, d': Deadline)
    requires todo <= request.Keys && Deadlines.DeclareFaultsRecovered(d, infos, request, todo) == Ok(d')
    ensures RecoveriesDeclared(d, d', request, todo)
    decreases todo
  {
    if todo != {} {
      var n := Least(todo);
      var d1 := DeclareRecoveredOne(d, infos, n, request[n]).value;
      assert request[n] * d.partitions[n].faults == request[n];
      RecoveriesEffect(d1, infos, request, todo - {n}, d');
      forall m | m in todo
        ensures m in d.partitions && m in d'.partitions
        ensures d'.partitions[m] == d.partitions[m].(recoveries := d.partitions[m].recoveries + request[m])
      {
        assert m != n ==> m in todo - {n};
      }
    }
  }

  // ---------- proofs ----------

  /** The named partitions are proven and posted, and nothing else has changed. */
  ghost predicate PartitionsProven(d: Deadline, d': Deadline, infos: Infos, numbers: seq<nat>) {
    && d' == d.(partitions := d'.partitions, posted := d'.posted)
    && (forall n :: n in d'.posted <==> n in d.posted || n in numbers)
    && d'.partitions.Keys == d.partitions.Keys
    && forall n :: n in d.partitions ==>
         if n in numbers then PE.Proven(d.partitions[n], d'.partitions[n], infos)
         else d'.partitions[n] == d.partitions[n]
  }

  lemma {:induction false} ProvenOneProves(d: Deadline, infos: Infos, size: nat, n: nat, d': Deadline)
    requires Valid(d, infos, size) && RecoveriesKnown(d, infos) && RecordProvenOne(d, infos, n) == Ok(d')
    ensures PartitionsProven(d, d', infos, [n])
  {
    PartitionValid(d, infos, size, n);
    PE.ProvingProves(d.partitions[n], infos, d'.partitions[n]);
  }

  /** The first partition named is proven; what is left is a smaller proof. */
  lemma {:induction false} ProvenNext(d: Deadline, infos: Infos, size: nat, numbers: seq<nat>, d': Deadline)
      returns (d1: Deadline)
    requires Valid(d, infos, size) && RecoveriesKnown(d, infos) && RecordProven(d, infos, numbers) == Ok(d')
    requires numbers != []
    ensures Valid(d1, infos, size) && RecoveriesKnown(d1, infos) && RecordProven(d1, infos, numbers[1..]) == Ok(d')
    ensures numbers[0] !in numbers[1..] && PartitionsProven(d, d1, infos, [numbers[0]])
  {
    var n, rest := numbers[0], numbers[1..];
    d1 := RecordProvenOne(d, infos, n).value;
    ProvenOneProves(d, infos, size, n, d1);
    OneProof(d, infos, n, Ok(d1));
    DI.ProvenKeeps(d, infos, size, [n]);
    ProvenExact(d1, infos, size, rest);
    forall i | 0 <= i < |rest| ensures rest[i] != n { assert rest[i] !in d1.posted && n in d1.posted; }
  }

  lemma {:induction false} ProvenJoin(d: Deadline, d1: Deadline, d': Deadline, infos: Infos, numbers: seq<nat>)
    requires numbers != [] && numbers[0] !in numbers[1..]
    requires PartitionsProven(d, d1, infos, [numbers[0]]) && PartitionsProven(d1, d', infos, numbers[1..])
    ensures PartitionsProven(d, d', infos, numbers)
  {
    assert forall m :: m in numbers <==> m == numbers[0] || m in numbers[1..];
  }

  /** An accepted proof recovers exactly the declared recoveries of the named partitions. */
  lemma {:induction false} ProvenEffect(d: Deadline, infos: Infos, size: nat, numbers: seq<nat>, d': Deadline)
    requires Valid(d, infos, size) && RecoveriesKnown(d, infos) && RecordProven(d, infos, numbers) == Ok(d')
    ensures PartitionsProven(d, d', infos, numbers)
    decreases |numbers|
  {
    if numbers != [] {
      var d1 := ProvenNext(d, infos, size, numbers, d');
      ProvenEffect(d1, infos, size, numbers[1..], d');
      ProvenJoin(d, d1, d', infos, numbers);
    }
  }

  // ---------- terminations ----------

  /** The named sectors have ended in the partitions of todo, which are marked if they lost some, and nothing
      but the live counter has changed besides. */
  ghost predicate SectorsEnded(d: Deadline, d': Deadline, request: Request, todo: set<nat>, block: nat)
    requires todo <= request.Keys
  {
    && d' == d.(partitions := d'.partitions, earlyTerminations := d'.earlyTerminations, liveSectors := d'.liveSectors)
    && Untouched(d.partitions, d'.partitions, todo)
    && (forall n :: n in todo ==>
          && n in d.partitions && n in d'.partitions
          && PE.Ended(d.partitions[n], d'.partitions[n], request[n], block))
    && (forall n :: n in d'.earlyTerminations <==> n in d.earlyTerminations || (n in todo && request[n] != {}))
  }

  lemma {:induction false} TerminateOneIs(d: Deadline, infos: Infos, block: nat, n: nat, numbers: set<nat>,
                                          d': Deadline)
      returns (p': Partition)
    requires n in d.partitions ==> PI.Valid(d.partitions[n], infos)
    requires TerminateOne(d, block, infos, n, numbers) == Ok(d')
    ensures n in d.partitions
    ensures var r := Partitions.TerminateSectors(d.partitions[n], block, infos, numbers); r.Ok? && r.value.0 == p'
    ensures d' == d.(partitions := d.partitions[n := p'], liveSectors := d'.liveSectors,
                     earlyTerminations := if numbers == {} then d.earlyTerminations else d.earlyTerminations + {n})
  {
    PI.TerminateKeeps(d.partitions[n], infos, block, numbers);
    p' := d'.partitions[n];
  }

  lemma {:induction false} TerminateOneEnds(d: Deadline, infos: Infos, size: nat, block: nat, request: Request,
                                            n: nat, d': Deadline)
    requires Valid(d, infos, size) && n in request && TerminateOne(d, block, infos, n, request[n]) == Ok(d')
    ensures SectorsEnded(d, d', request, {n}, block)
  {
    if n in d.partitions { PartitionValid(d, infos, size, n); }
    var p' := TerminateOneIs(d, infos, block, n, request[n], d');
    PE.TerminatingEnds(d.partitions[n], infos, block, request[n], p');
    OneEnded(d, request, n, block, p', d');
  }

  lemma {:induction false} OneEnded(d: Deadline, request: Request, n: nat, block: nat, p': Partition, d': Deadline)
    requires n in request && n in d.partitions && PE.Ended(d.partitions[n], p', request[n], block)
    requires d' == d.(partitions := d.partitions[n := p'], liveSectors := d'.liveSectors,
                      earlyTerminations := if request[n] == {} then d.earlyTerminations else d.earlyTerminations + {n})
    ensures SectorsEnded(d, d', request, {n}, block)
  {
  }

  /** The first partition named loses its sectors; what is left is a smaller termination. */
  lemma {:induction false} TerminateNext(d: Deadline, infos: Infos, size: nat, block: nat, request: Request,
                                         todo: set<nat>, n: nat, d': Deadline)
      returns (d1: Deadline)
    requires Valid(d, infos, size) && todo <= request.Keys && todo != {} && n == Least(todo)
    requires Deadlines.TerminateSectors(d, block, infos, request, todo) == Ok(d')
    ensures Valid(d1, infos, size) && TerminateOne(d, block, infos, n, request[n]) == Ok(d1)
    ensures Deadlines.TerminateSectors(d1, block, infos, request, todo - {n}) == Ok(d')
  {
    DI.TerminateOneKeeps(d, infos, size, block, n, request[n]);
    var r := TerminateOne(d, block, infos, n, request[n]);
    TerminateFirst(d, block, infos, request, todo, n, r);
    d1 := r.value;
  }

  lemma {:induction false} EndedJoin(d: Deadline, d1: Deadline, d': Deadline, request: Request, todo: set<nat>,
                                     n: nat, block: nat)
    requires todo <= request.Keys && n in todo
    requires SectorsEnded(d, d1, request, {n}, block) && SectorsEnded(d1, d', request, todo - {n}, block)
    ensures SectorsEnded(d, d', request, todo, block)
  {
    forall m | m in todo
      ensures m in d.partitions && m in d'.partitions
      ensures PE.Ended(d.partitions[m], d'.partitions[m], request[m], block)
    {
      assert m in {n} || m in todo - {n};
    }
  }

  /** An accepted termination ends exactly the named sectors. */
  lemma {:induction false} TerminationsEffect(d: Deadline, infos: Infos, size: nat, block: nat, request: Request,
                                              todo: set<nat>, d': Deadline)
    requires Valid(d, infos, size) && todo <= request.Keys
    requires Deadlines.TerminateSectors(d, block, infos, request, todo) == Ok(d')
    ensures SectorsEnded(d, d', request, todo, block)
    decreases todo
  {
    if todo != {} {
      var n := Least(todo);
      var d1 := TerminateNext(d, infos, size, block, request, todo, n, d');
      TerminateOneEnds(d, infos, size, block, request, n, d1);
      TerminationsEffect(d1, infos, size, block, request, todo - {n}, d');
      EndedJoin(d, d1, d', request, todo, n, block);
    }
  }

  // ---------- expiry ----------

  /** Some listed partition has s due, or due early. */
  ghost predicate SomeDue(parts: Parts, numbers: seq<nat>, until: nat, s: nat) {
    exists n :: n in numbers && n in parts && PE.FallsDue(parts[n].expirations, until, s)
  }

  ghost predicate SomeEarly(parts: Parts, numbers: seq<nat>, until: nat, s: nat) {
    exists n :: n in numbers && n in parts && PE.FallsEarly(parts[n].expirations, until, s)
  }

  ghost predicate HasEarly(p: Partition, until: nat) {
    exists s: nat :: PE.FallsEarly(p.expirations, until, s)
  }

  /** Exactly what the listed partitions had due is popped, and those with something early are marked. */
  ghost predicate PopsListed(parts: Parts, numbers: seq<nat>, until: nat, marked: set<nat>, popped: ExpirationSet) {
    && (forall s :: s in popped.onTime <==> SomeDue(parts, numbers, until, s))
    && (forall s :: s in popped.early <==> SomeEarly(parts, numbers, until, s))
    && (forall n :: n in marked <==> n in numbers && n in parts && HasEarly(parts[n], until))
  }

  /** Each listed partition has expired, and the others are as they were. */
  ghost predicate AllLapsed(parts: Parts, parts': Parts, numbers: seq<nat>, until: nat) {
    && parts'.Keys == parts.Keys
    && forall n :: n in parts ==>
         if n in numbers then PE.Lapsed(parts[n], parts'[n], until, multiset(numbers)[n] == 1)
         else parts'[n] == parts[n]
  }

  /** One more visit: the partition has expired already, or its turn has come. */
  lemma {:induction false} VisitOne(p: Partition, p1: Partition, p2: Partition, until: nat, before: bool, once: bool,
                                    popped: ExpirationSet)
    requires if before then PE.Lapsed(p, p1, until, once) else p1 == p
    requires Partitions.PopExpiredSectors(p1, until) == Ok((p2, popped))
    ensures PE.Lapsed(p, p2, until, !before)
    ensures if before then popped.onTime == popped.early == {} else PE.PopsDue(p.expirations, until, popped)
  {
    PE.ExpiringPops(p1, until, p2, popped);
    if before { PE.LapsedTwice(p, p1, p2, until, once, popped); }
  }

  lemma {:induction false} LapsedSnoc(parts: Parts, parts1: Parts, init: seq<nat>, n: nat, p: Partition, until: nat)
    requires AllLapsed(parts, parts1, init, until) && n in parts && PE.Lapsed(parts[n], p, until, n !in init)
    ensures AllLapsed(parts, parts1[n := p], init + [n], until)
  {
    assert multiset(init + [n])[n] == multiset(init)[n] + 1;
    forall m | m in parts && m != n ensures m in init + [n] <==> m in init { }
  }

  lemma {:induction false} PopsSnoc(parts: Parts, init: seq<nat>, n: nat, until: nat, marked: set<nat>,
                                    so: ExpirationSet, popped: ExpirationSet)
    requires PopsListed(parts, init, until, marked, so) && n in parts
    requires if n in init then popped.onTime == popped.early == {} else PE.PopsDue(parts[n].expirations, until, popped)
    ensures PopsListed(parts, init + [n], until, marked + (if popped.early != {} then {n} else {}),
                       ExpirationSet(so.onTime + popped.onTime, so.early + popped.early))
  {
    var numbers := init + [n];
    assert forall m :: m in numbers <==> m in init || m == n;
    forall s ensures SomeDue(parts, numbers, until, s) <==>
                     SomeDue(parts, init, until, s) || PE.FallsDue(parts[n].expirations, until, s) { }
    forall s ensures SomeEarly(parts, numbers, until, s) <==>
                     SomeEarly(parts, init, until, s) || PE.FallsEarly(parts[n].expirations, until, s) { }
  }

  lemma {:induction false} ExpireAllEffect(parts: Parts, numbers: seq<nat>, until: nat, e: Expired)
    requires ExpireAll(parts, numbers, until) == Ok(e)
    ensures AllLapsed(parts, e.partitions, numbers, until) && PopsListed(parts, numbers, until, e.marked, e.popped)
  {
    if numbers != [] {
      var init, n := numbers[..|numbers| - 1], numbers[|numbers| - 1];
      assert numbers == init + [n];
      var before := ExpireAll(parts, init, until).value;
      ExpireAllEffect(parts, init, until, before);
      var (p, popped) := Partitions.PopExpiredSectors(before.partitions[n], until).value;
      VisitOne(parts[n], before.partitions[n], p, until, n in init, multiset(init)[n] == 1, popped);
      LapsedSnoc(parts, before.partitions, init, n, p, until);
      PopsSnoc(parts, init, n, until, before.marked, before.popped, popped);
    }
  }

  /** The due blocks for which the index lists the partition. */
  ghost function BlocksOf(blocks: map<nat, nat>, until: nat, n: nat): set<nat> {
    set b | b in blocks && b <= until && blocks[b] == n
  }

  ghost function Among(blocks: map<nat, nat>, due: set<nat>, n: nat): set<nat>
    requires due <= blocks.Keys
  {
    set b | b in due && blocks[b] == n
  }

  lemma {:induction false} ListedOften(blocks: map<nat, nat>, due: set<nat>, n: nat)
    requires due <= blocks.Keys
    ensures multiset(Listed(blocks, due))[n] == |Among(blocks, due, n)|
    decreases due
  {
    if due == {} {
      assert Among(blocks, due, n) == {};
    } else {
      var l := Least(due);
      ListedOften(blocks, due - {l}, n);
      assert Among(blocks, due, n) == Among(blocks, due - {l}, n) + if blocks[l] == n then {l} else {};
    }
  }

  /** What closing a deadline does: exactly what the partitions listed for a due block have due is popped and
      terminated, partitions with early sectors are marked, and the due blocks leave the index. */
  lemma {:induction false} ExpiryEffect(d: Deadline, until: nat, d': Deadline, popped: ExpirationSet)
    requires Deadlines.PopExpiredSectors(d, until) == Ok((d', popped))
    ensures LapsedFrame(d, d', until, popped)
    ensures LapsedPartitions(d, d'.partitions, until) && LapsedSectors(d, until, popped)
  {
    var numbers, e := ExpiryBy(d, until, d', popped);
    ListsExactly(d, until, numbers);
    ExpireAllEffect(d.partitions, numbers, until, e);
    ListedPartitions(d, until, numbers, e.partitions);
    ListedSectors(d, until, numbers, e.marked, e.popped);
    FrameBy(d, until, numbers, e, d');
  }

  /** Expiry visits the partitions listed for the due blocks, also when there are none. */
  lemma {:induction false} ExpiryBy(d: Deadline, until: nat, d': Deadline, popped: ExpirationSet)
      returns (numbers: seq<nat>, e: Expired)
    requires Deadlines.PopExpiredSectors(d, until) == Ok((d', popped))
    ensures numbers == Listed(d.expirationsBlocks, DueBlocks(d.expirationsBlocks, until))
    ensures ExpireAll(d.partitions, numbers, until) == Ok(e) && e.popped == popped
    ensures d' == d.(expirationsBlocks := d.expirationsBlocks - DueBlocks(d.expirationsBlocks, until),
                     partitions := e.partitions, earlyTerminations := d.earlyTerminations + e.marked,
                     liveSectors := d.liveSectors - (|popped.onTime| + |popped.early|))
  {
    var due := DueBlocks(d.expirationsBlocks, until);
    numbers := Listed(d.expirationsBlocks, due);
    var r := ExpireAll(d.partitions, numbers, until);
    ExpiryIs(d, until, due, numbers, r);
    assert d.earlyTerminations + {} == d.earlyTerminations;
    e := r.value;
  }

  lemma {:induction false} ListsExactly(d: Deadline, until: nat, numbers: seq<nat>)
    requires numbers == Listed(d.expirationsBlocks, DueBlocks(d.expirationsBlocks, until))
    ensures forall n :: multiset(numbers)[n] == |BlocksOf(d.expirationsBlocks, until, n)|
    ensures forall n :: n in numbers && n in d.partitions <==> Lists(d, until, n)
  {
    var due := DueBlocks(d.expirationsBlocks, until);
    forall n ensures multiset(numbers)[n] == |BlocksOf(d.expirationsBlocks, until, n)| {
      ListedOften(d.expirationsBlocks, due, n);
      assert Among(d.expirationsBlocks, due, n) == BlocksOf(d.expirationsBlocks, until, n);
    }
    forall n ensures n in numbers && n in d.partitions <==> Lists(d, until, n) {
      assert n in numbers <==> n in multiset(numbers);
      if b :| b in d.expirationsBlocks && b <= until && d.expirationsBlocks[b] == n {
        assert b in BlocksOf(d.expirationsBlocks, until, n);
      }
    }
  }

  ghost predicate Lists(d: Deadline, until: nat, n: nat) {
    n in d.partitions && ListedBy(d, until, n)
  }

  /** The due blocks leave the index, partitions with something early are marked and the live counter falls. */
  ghost predicate LapsedFrame(d: Deadline, d': Deadline, until: nat, popped: ExpirationSet) {
    && d' == d.(partitions := d'.partitions, expirationsBlocks := d'.expirationsBlocks,
                earlyTerminations := d'.earlyTerminations, liveSectors := d'.liveSectors)
    && d'.liveSectors == d.liveSectors - |popped.onTime| - |popped.early|
    && (forall b :: b in d'.expirationsBlocks <==> b in d.expirationsBlocks && b > until)
    && (forall b :: b in d'.expirationsBlocks ==> d'.expirationsBlocks[b] == d.expirationsBlocks[b])
    && (forall n :: n in d'.earlyTerminations <==>
          n in d.earlyTerminations || (Lists(d, until, n) && HasEarly(d.partitions[n], until)))
  }

  /** The partitions listed for a due block have expired, and the others are as they were. */
  ghost predicate LapsedPartitions(d: Deadline, parts: Parts, until: nat) {
    && parts.Keys == d.partitions.Keys
    && forall n :: n in d.partitions ==>
         if Lists(d, until, n) then
           PE.Lapsed(d.partitions[n], parts[n], until, |BlocksOf(d.expirationsBlocks, until, n)| == 1)
         else parts[n] == d.partitions[n]
  }

  /** Exactly what those partitions had due is popped, on the side it stood on. */
  ghost predicate LapsedSectors(d: Deadline, until: nat, popped: ExpirationSet) {
    && (forall s :: s in popped.onTime <==>
          exists n :: Lists(d, until, n) && PE.FallsDue(d.partitions[n].expirations, until, s))
    && (forall s :: s in popped.early <==>
          exists n :: Lists(d, until, n) && PE.FallsEarly(d.partitions[n].expirations, until, s))
  }

  lemma {:induction false} ListedSectors(d: Deadline, until: nat, numbers: seq<nat>, marked: set<nat>,
                                         popped: ExpirationSet)
    requires forall n :: n in numbers && n in d.partitions <==> Lists(d, until, n)
    requires PopsListed(d.partitions, numbers, until, marked, popped)
    ensures LapsedSectors(d, until, popped)
  {
    forall s ensures SomeDue(d.partitions, numbers, until, s) <==>
                     exists n :: Lists(d, until, n) && PE.FallsDue(d.partitions[n].expirations, until, s)
    {
      if n :| n in numbers && n in d.partitions && PE.FallsDue(d.partitions[n].expirations, until, s) {
        assert Lists(d, until, n);
      }
    }
    forall s ensures SomeEarly(d.partitions, numbers, until, s) <==>
                     exists n :: Lists(d, until, n) && PE.FallsEarly(d.partitions[n].expirations, until, s)
    {
      if n :| n in numbers && n in d.partitions && PE.FallsEarly(d.partitions[n].expirations, until, s) {
        assert Lists(d, until, n);
      }
    }
  }

  lemma {:induction false} ListedPartitions(d: Deadline, until: nat, numbers: seq<nat>, parts: Parts)
    requires forall n :: n in numbers && n in d.partitions <==> Lists(d, until, n)
    requires forall n :: multiset(numbers)[n] == |BlocksOf(d.expirationsBlocks, until, n)|
    requires AllLapsed(d.partitions, parts, numbers, until)
    ensures LapsedPartitions(d, parts, until)
  {
    forall n | n in d.partitions
      ensures if Lists(d, until, n) then
                PE.Lapsed(d.partitions[n], parts[n], until, |BlocksOf(d.expirationsBlocks, until, n)| == 1)
              else parts[n] == d.partitions[n]
    {
      assert multiset(numbers)[n] == |BlocksOf(d.expirationsBlocks, until, n)|;
    }
  }

  lemma {:induction false} FrameBy(d: Deadline, until: nat, numbers: seq<nat>, e: Expired, d': Deadline)
    requires forall n :: n in numbers && n in d.partitions <==> Lists(d, until, n)
    requires PopsListed(d.partitions, numbers, until, e.marked, e.popped)
    requires d' == d.(expirationsBlocks := d.expirationsBlocks - DueBlocks(d.expirationsBlocks, until),
                      partitions := e.partitions, earlyTerminations := d.earlyTerminations + e.marked,
                      liveSectors := d.liveSectors - (|e.popped.onTime| + |e.popped.early|))
    ensures LapsedFrame(d, d', until, e.popped)
  {
  }
}
