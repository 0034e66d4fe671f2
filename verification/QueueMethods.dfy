/** The expiration queue as the object the pallet mutates (pallets/storage-provider/src/expiration_queue.rs):
    every method is a loop over entries in block order, proved to do what the queue functions say. */
module QueueMethods {
  import opened Arith
  import opened Results
  import opened Spec = ExpirationQueue

  // ---------- adding one sector at a time ----------

  lemma {:induction false} AddActiveNone(q: Queue)
    ensures AddActive(q, {}) == q
  {
    assert forall k :: k in q ==> ExpirationSet(Spec.Get(q, k).onTime + At({}, k), Spec.Get(q, k).early) == q[k];
  }

  ghost function Blocks(items: set<SectorInfo>): set<nat> {
    set i | i in items :: i.expiration
  }

  lemma {:induction false} ItemsMore(items: set<SectorInfo>, x: SectorInfo)
    ensures Blocks(items + {x}) == Blocks(items) + {x.expiration}
    ensures forall k :: At(items + {x}, k) == At(items, k) + (if x.expiration == k then {x.number} else {})
  {
    forall k ensures At(items + {x}, k) == At(items, k) + (if x.expiration == k then {x.number} else {}) {
      forall s | s in At(items, k) ensures s in At(items + {x}, k) {
        var i :| i in items && i.expiration == k && i.number == s;
        assert i in items + {x};
      }
      assert x in items + {x};
    }
    forall k | k in Blocks(items) ensures k in Blocks(items + {x}) {
      var i :| i in items && i.expiration == k;
      assert i in items + {x};
    }
    assert x in items + {x};
  }

  lemma {:induction false} AddActiveAtOne(q: Queue, items: set<SectorInfo>, x: SectorInfo, k: nat)
    requires k in AddActive(q, items + {x}) && k in AddTo(AddActive(q, items), x.expiration, {x.number}, {})
    ensures AddTo(AddActive(q, items), x.expiration, {x.number}, {})[k] == AddActive(q, items + {x})[k]
  {
    ItemsMore(items, x);
    if k !in q.Keys + Blocks(items) { NoneAt(items, k); }
  }

  lemma {:induction false} AddActiveKeys(q: Queue, items: set<SectorInfo>, x: SectorInfo)
    ensures AddTo(AddActive(q, items), x.expiration, {x.number}, {}).Keys == AddActive(q, items + {x}).Keys
  {
    ItemsMore(items, x);
    assert AddActive(q, items + {x}).Keys == q.Keys + Blocks(items + {x});
    assert AddActive(q, items).Keys == q.Keys + Blocks(items);
  }

  /** Adding one sector more is adding a larger set. */
  lemma {:induction false} AddActiveOne(q: Queue, items: set<SectorInfo>, x: SectorInfo)
    ensures AddTo(AddActive(q, items), x.expiration, {x.number}, {}) == AddActive(q, items + {x})
  {
    var a, b := AddTo(AddActive(q, items), x.expiration, {x.number}, {}), AddActive(q, items + {x});
    AddActiveKeys(q, items, x);
    forall k | k in a ensures a[k] == b[k] { AddActiveAtOne(q, items, x, k); }
  }

  lemma {:induction false} NoneAt(items: set<SectorInfo>, k: nat)
    requires k !in Blocks(items)
    ensures At(items, k) == {}
  {
  }

  // ---------- searching ----------

  /** The sectors on time in some entry of the visited blocks. */
  ghost function Seen(q: Queue, visited: set<nat>): set<nat>
    requires visited <= q.Keys
  {
    set k, s | k in visited && s in q[k].onTime :: s
  }

  lemma {:induction false} SeenMore(q: Queue, visited: set<nat>, k: nat)
    requires visited <= q.Keys && k in q
    ensures Seen(q, visited + {k}) == Seen(q, visited) + q[k].onTime
  {
  }

  /** What is left to find at an entry, once exactly the entries before it have been visited, is its group. */
  lemma {:induction false} GroupIs(q: Queue, infos: Infos, visited: set<nat>, k: nat)
    requires visited <= q.Keys && k in q
    requires forall j :: j in q ==> (j in visited <==> Precedes(infos.Values, j, k))
    ensures q[k].onTime * (infos.Keys - Seen(q, visited)) == Group(q, infos, k)
  {
    forall s | s in q[k].onTime && s in infos ensures s !in Seen(q, visited) <==> s in Group(q, infos, k) {
      if s in Group(q, infos, k) {
        assert forall j :: j in visited ==> s !in q[j].onTime;
      }
      if s !in Seen(q, visited) {
        forall j | j in q && Precedes(infos.Values, j, k) ensures s !in q[j].onTime { assert j in visited; }
      }
    }
  }

  ghost function GroupsOf(q: Queue, infos: Infos, visited: set<nat>): map<nat, set<nat>>
    requires visited <= q.Keys
  {
    map k | k in visited && Group(q, infos, k) != {} :: Group(q, infos, k)
  }

  lemma {:induction false} GroupsMore(q: Queue, infos: Infos, visited: set<nat>, k: nat)
    requires visited <= q.Keys && k in q && k !in visited
    ensures GroupsOf(q, infos, visited + {k})
            == if Group(q, infos, k) == {} then GroupsOf(q, infos, visited)
                else GroupsOf(q, infos, visited)[k := Group(q, infos, k)]
  {
  }

  /** When nothing is left to find, the entries not visited have no group. */
  lemma {:induction false} NothingLeft(q: Queue, infos: Infos, visited: set<nat>)
    requires visited <= q.Keys && infos.Keys - Seen(q, visited) == {}
    requires forall j, k :: j in visited && k in q && k !in visited ==> Precedes(infos.Values, j, k)
    ensures GroupsOf(q, infos, q.Keys) == GroupsOf(q, infos, visited)
  {
    forall k | k in q && k !in visited ensures Group(q, infos, k) == {} {
      forall s | s in infos && s in q[k].onTime ensures s !in Group(q, infos, k) {
        assert s !in infos.Keys - Seen(q, visited);
      }
    }
  }

  lemma {:induction false} FoundAll(q: Queue, infos: Infos, visited: set<nat>)
    requires infos.Values <= q.Keys && visited <= q.Keys && infos.Keys - Seen(q, visited) == {}
    requires forall j, k :: j in visited && k in q && k !in visited ==> Precedes(infos.Values, j, k)
    ensures Find(q, infos) == Ok(GroupsOf(q, infos, visited))
  {
    NothingLeft(q, infos, visited);
    forall s | s in infos ensures OnTimeSomewhere(q, s) {
      assert s !in infos.Keys - Seen(q, visited);
    }
  }

  lemma {:induction false} SomeMissing(q: Queue, infos: Infos)
    requires infos.Values <= q.Keys && infos.Keys - Seen(q, q.Keys) != {}
    ensures Find(q, infos) == Err(SectorNotFound)
  {
    var s :| s in infos.Keys - Seen(q, q.Keys);
    assert !OnTimeSomewhere(q, s);
  }

  // ---------- taking groups off ----------

  lemma {:induction false} TakeNone(q: Queue)
    ensures Take(q, map[]) == q
  {
  }

  lemma {:induction false} TakeOne(q: Queue, groups: map<nat, set<nat>>, k: nat, s: set<nat>)
    requires k in q && k !in groups
    ensures k in Take(q, groups) && Take(q, groups)[k] == q[k]
    ensures UpdateOrDelete(Take(q, groups), k, ExpirationSet(q[k].onTime - s, q[k].early)) == Take(q, groups[k := s])
  {
    assert groups[k := s][k] == s;
    assert forall j :: j != k ==> (j in groups[k := s] <==> j in groups);
  }

  lemma {:induction false} MembersMore(groups: map<nat, set<nat>>, k: nat, s: set<nat>)
    requires k !in groups
    ensures Members(groups[k := s]) == Members(groups) + s
  {
    var more := groups[k := s];
    forall x | x in Members(groups) ensures x in Members(more) {
      var j :| j in groups && x in groups[j];
      assert j in more && x in more[j];
    }
    forall x | x in s ensures x in Members(more) { assert k in more && x in more[k]; }
  }

  // ---------- visiting every entry ----------

  ghost function MentionedIn(q: Queue, visited: set<nat>): set<nat>
    requires visited <= q.Keys
  {
    set k, s | k in visited && s in q[k].All() :: s
  }

  lemma {:induction false} MentionedMore(q: Queue, visited: set<nat>, k: nat)
    requires visited <= q.Keys && k in q
    ensures MentionedIn(q, visited + {k}) == MentionedIn(q, visited) + q[k].onTime + q[k].early
  {
    forall s | s in MentionedIn(q, visited) + q[k].onTime + q[k].early ensures s in MentionedIn(q, visited + {k}) {
      if s in MentionedIn(q, visited) {
        var j :| j in visited && s in q[j].All();
        assert j in visited + {k};
      } else {
        assert s in q[k].All() && k in visited + {k};
      }
    }
  }

  lemma {:induction false} RecoveredIs(q: Queue, numbers: set<nat>, visited: set<nat>, k: nat)
    requires visited <= q.Keys && k in q && forall j :: j in q ==> (j in visited <==> j < k)
    ensures q[k].early * (numbers - MentionedIn(q, visited) - q[k].onTime) == Recovered(q, numbers, k)
  {
    forall s ensures s !in MentionedIn(q, visited) <==> UnseenBefore(q, s, k) {
      if UnseenBefore(q, s, k) { assert forall j :: j in visited ==> s !in q[j].All(); }
      if s !in MentionedIn(q, visited) {
        forall j | j in q && j < k ensures s !in q[j].All() { assert j in visited; }
      }
    }
  }

  /** The queue with the recovered sectors taken off the early sets of the visited entries. */
  ghost function Unset(q: Queue, numbers: set<nat>, visited: set<nat>): Queue {
    map k | k in q :: if k in visited then ExpirationSet(q[k].onTime, q[k].early - Recovered(q, numbers, k)) else q[k]
  }

  ghost function Items(infos: Infos, numbers: set<nat>): set<SectorInfo>
    requires numbers <= infos.Keys
  {
    set s | s in numbers :: SectorInfo(s, infos[s])
  }

  lemma {:induction false} ItemsOne(infos: Infos, numbers: set<nat>, s: nat)
    requires numbers <= infos.Keys && s in infos
    ensures Items(infos, numbers + {s}) == Items(infos, numbers) + {SectorInfo(s, infos[s])}
  {
  }

  ghost function RescheduledIn(q: Queue, infos: Infos, numbers: set<nat>, visited: set<nat>): set<SectorInfo>
    requires numbers <= infos.Keys && visited <= q.Keys
  {
    set k, s | k in visited && s in Recovered(q, numbers, k) :: SectorInfo(s, infos[s])
  }

  lemma {:induction false} RescheduledMore(q: Queue, infos: Infos, numbers: set<nat>, visited: set<nat>, k: nat)
    requires numbers <= infos.Keys && visited <= q.Keys && k in q
    ensures RescheduledIn(q, infos, numbers, visited + {k})
            == RescheduledIn(q, infos, numbers, visited) + Items(infos, Recovered(q, numbers, k))
  {
    var more := RescheduledIn(q, infos, numbers, visited + {k});
    forall x | x in RescheduledIn(q, infos, numbers, visited) ensures x in more {
      var j, s :| j in visited && s in Recovered(q, numbers, j) && x == SectorInfo(s, infos[s]);
      assert j in visited + {k};
    }
    forall x | x in Items(infos, Recovered(q, numbers, k)) ensures x in more { assert k in visited + {k}; }
  }

  /** Once all numbers have been seen, the entries not visited have nothing to recover. */
  lemma {:induction false} RecoveredAll(q: Queue, infos: Infos, numbers: set<nat>, visited: set<nat>)
    requires numbers <= infos.Keys && visited <= q.Keys
    requires numbers - MentionedIn(q, visited) == {} || visited == q.Keys
    requires forall j, k :: j in visited && k in q && k !in visited ==> j < k
    ensures Unset(q, numbers, visited) == Unset(q, numbers, q.Keys)
    ensures RescheduledIn(q, infos, numbers, visited) == Rescheduled(q, infos, numbers)
  {
    forall k | k in q && k !in visited ensures Recovered(q, numbers, k) == {} {
      forall s | s in numbers ensures s !in Recovered(q, numbers, k) {
        assert s !in numbers - MentionedIn(q, visited);
        var j :| j in visited && s in q[j].All();
      }
    }
    var a, b := Unset(q, numbers, visited), Unset(q, numbers, q.Keys);
    forall k | k in q ensures a[k] == b[k] {
      if k !in visited { assert q[k].early - Recovered(q, numbers, k) == q[k].early; }
    }
  }

  function NonEmpty(q: Queue): Queue {
    map k | k in q && !q[k].IsEmpty() :: q[k]
  }

  lemma {:induction false} RetainIs(q: Queue, numbers: set<nat>)
    ensures NonEmpty(Unset(q, numbers, q.Keys)) == WithoutEarly(q, numbers)
  {
  }

  lemma {:induction false} UnsetMore(q: Queue, numbers: set<nat>, visited: set<nat>, k: nat)
    requires k in q && k !in visited
    ensures Unset(q, numbers, visited)[k] == q[k]
    ensures Unset(q, numbers, visited)[k := ExpirationSet(q[k].onTime, q[k].early - Recovered(q, numbers, k))]
            == Unset(q, numbers, visited + {k})
  {
  }

  lemma {:induction false} MentionedAll(q: Queue, numbers: set<nat>, visited: set<nat>)
    requires visited <= q.Keys && (numbers - MentionedIn(q, visited) == {} || visited == q.Keys)
    ensures numbers - MentionedIn(q, visited) == {} <==> forall s :: s in numbers ==> Mentioned(q, s)
  {
    if numbers - MentionedIn(q, visited) == {} {
      forall s | s in numbers ensures Mentioned(q, s) { assert s !in numbers - MentionedIn(q, visited); }
    } else {
      var s :| s in numbers - MentionedIn(q, visited);
      assert !Mentioned(q, s);
    }
  }

  // ---------- striking sectors from every entry ----------

  ghost function StruckEntry(e: ExpirationSet, numbers: set<nat>): ExpirationSet {
    ExpirationSet(e.onTime - numbers, e.early - (numbers - e.onTime))
  }

  ghost function StruckIn(q: Queue, numbers: set<nat>, visited: set<nat>): Queue {
    map k | k in q :: if k in visited then StruckEntry(q[k], numbers) else q[k]
  }

  /** What striking the visited entries has found: on time, and early. */
  ghost function FoundIn(q: Queue, numbers: set<nat>, visited: set<nat>): ExpirationSet
    requires visited <= q.Keys
  {
    ExpirationSet(set k, s | k in visited && s in q[k].onTime * numbers :: s,
                  set k, s | k in visited && s in (q[k].early - q[k].onTime) * numbers :: s)
  }

  lemma {:induction false} StruckMore(q: Queue, numbers: set<nat>, visited: set<nat>, k: nat)
    requires visited <= q.Keys && k in q && k !in visited
    ensures StruckIn(q, numbers, visited)[k] == q[k]
    ensures StruckIn(q, numbers, visited)[k := StruckEntry(q[k], numbers)] == StruckIn(q, numbers, visited + {k})
  {
  }

  lemma {:induction false} FoundMore(q: Queue, numbers: set<nat>, visited: set<nat>, k: nat)
    requires visited <= q.Keys && k in q
    ensures FoundIn(q, numbers, visited + {k}).onTime == FoundIn(q, numbers, visited).onTime + q[k].onTime * numbers
    ensures FoundIn(q, numbers, visited + {k}).early
            == FoundIn(q, numbers, visited).early + (q[k].early - q[k].onTime) * numbers
  {
  }

  lemma {:induction false} StruckAll(q: Queue, numbers: set<nat>)
    ensures StruckIn(q, numbers, q.Keys) == Strike(q, numbers)
    ensures FoundIn(q, numbers, q.Keys) == ExpirationSet(StruckOnTime(q, numbers), StruckEarly(q, numbers))
  {
  }

  class ExpirationQueue {
    var entries: Queue

    constructor ()
      ensures entries == map[]
    {
      entries := map[];
    }

    method AddToExpirationSet(expiration: nat, onTime: set<nat>, early: set<nat>)
      modifies this
      ensures entries == AddTo(old(entries), expiration, onTime, early)
    {
      if onTime == {} && early == {} { return; }
      var e := if expiration in entries then entries[expiration] else EMPTY_SET;
      e := ExpirationSet(e.onTime + onTime, e.early + early);
      entries := entries[expiration := e];
    }

    method MustUpdateOrDelete(expiration: nat, e: ExpirationSet)
      modifies this
      ensures entries == UpdateOrDelete(old(entries), expiration, e)
    {
      if e.IsEmpty() { entries := entries - {expiration}; } else { entries := entries[expiration := e]; }
    }

    method AddActiveSectors(items: seq<SectorInfo>)
      modifies this
      ensures entries == AddActive(old(entries), set i | i in items)
    {
      AddActiveNone(entries);
      ghost var added: set<SectorInfo> := {};
      for i := 0 to |items|
        invariant added == set x | x in items[..i]
        invariant entries == AddActive(old(entries), added)
      {
        AddToExpirationSet(items[i].expiration, {items[i].number}, {});
        AddActiveOne(old(entries), added, items[i]);
        assert items[..i + 1] == items[..i] + [items[i]];
        added := added + {items[i]};
      }
      assert items[..|items|] == items;
    }

    /** First the declared expirations, then all other entries in block order until everything is found. */
    method FindSectorsByExpiration(infos: Infos) returns (r: Result<map<nat, set<nat>>, Error>)
      ensures r == Find(entries, infos)
    {
      var declared, remaining, groups := infos.Values, infos.Keys, map[];
      var todo := declared;
      while todo != {}
        invariant todo <= declared && declared - todo <= entries.Keys
        invariant forall j, k :: j in declared - todo && k in todo ==> j < k
        invariant remaining == infos.Keys - Seen(entries, declared - todo)
        invariant groups == GroupsOf(entries, infos, declared - todo)
        decreases todo
      {
        var e := Least(todo);
        if e !in entries { return Err(ExpirationSetNotFound); }
        ghost var visited := declared - todo;
        GroupIs(entries, infos, visited, e);
        SeenMore(entries, visited, e);
        GroupsMore(entries, infos, visited, e);
        var group := entries[e].onTime * remaining;
        remaining := remaining - group;
        if group != {} { groups := groups[e := group]; }
        todo := todo - {e};
        assert declared - todo == visited + {e};
      }
      assert declared - todo == declared;
      todo := entries.Keys;
      ghost var done, visited := {}, declared;
      while todo != {}
        invariant done !! todo && done + todo == entries.Keys && visited == declared + done <= entries.Keys
        invariant forall j, k :: j in done && k in todo ==> j < k
        invariant remaining == infos.Keys - Seen(entries, visited)
        invariant groups == GroupsOf(entries, infos, visited)
        decreases todo
      {
        var e := Least(todo);
        ghost var before := visited;
        todo, done, visited := todo - {e}, done + {e}, visited + {e};
        if e in declared {
          assert visited == before;
          continue;
        }
        GroupIs(entries, infos, before, e);
        SeenMore(entries, before, e);
        GroupsMore(entries, infos, before, e);
        var group := entries[e].onTime * remaining;
        remaining := remaining - group;
        if group != {} { groups := groups[e := group]; }
        if remaining == {} { break; }
      }
      if remaining != {} {
        assert visited == entries.Keys;
        SomeMissing(entries, infos);
        return Err(SectorNotFound);
      }
      FoundAll(entries, infos, visited);
      return Ok(groups);
    }

    /** Takes the groups after the fault block off their entries. */
    method TakeLater(groups: map<nat, set<nat>>, block: nat) returns (early: set<nat>)
      requires groups.Keys <= entries.Keys
      modifies this
      ensures entries == Take(old(entries), Later(groups, block)) && early == Members(Later(groups, block))
    {
      early := {};
      var todo := groups.Keys;
      ghost var moved: map<nat, set<nat>> := map[];
      TakeNone(entries);
      while todo != {}
        invariant todo <= groups.Keys
        invariant moved == map k | k in groups && k !in todo && k > block :: groups[k]
        invariant entries == Take(old(entries), moved) && early == Members(moved)
        decreases todo
      {
        var e := Least(todo);
        todo := todo - {e};
        if e <= block { continue; }
        TakeOne(old(entries), moved, e, groups[e]);
        MembersMore(moved, e, groups[e]);
        early := early + groups[e];
        MustUpdateOrDelete(e, ExpirationSet(entries[e].onTime - groups[e], entries[e].early));
        moved := moved[e := groups[e]];
      }
      assert moved == Later(groups, block);
    }

    /** Sectors that would expire after the fault block move to early expiration at that block. */
    method RescheduleAsFaults(block: nat, infos: Infos) returns (r: Result<(), Error>)
      modifies this
      ensures var s := Spec.RescheduleAsFaults(old(entries), block, infos);
              if s.Ok? then r.Ok? && entries == s.value else r == Err(s.error) && entries == old(entries)
    {
      var found := FindSectorsByExpiration(infos);
      if found.Err? { return Err(found.error); }
      var early := TakeLater(found.value, block);
      AddToExpirationSet(block, {}, early);
      return Ok(());
    }

    method RemoveActiveSectors(infos: Infos) returns (r: Result<set<nat>, Error>)
      modifies this
      ensures var found := Find(old(entries), infos);
              if found.Ok? then entries == Take(old(entries), found.value) && r == Ok(Members(found.value))
              else r == Err(found.error) && entries == old(entries)
    {
      var found := FindSectorsByExpiration(infos);
      if found.Err? { return Err(found.error); }
      r := TakeAll(found.value);
    }

    method TakeAll(groups: map<nat, set<nat>>) returns (r: Result<set<nat>, Error>)
      requires groups.Keys <= entries.Keys
      modifies this
      ensures entries == Take(old(entries), groups) && r == Ok(Members(groups))
    {
      var removed := {};
      var todo := groups.Keys;
      ghost var taken: map<nat, set<nat>> := map[];
      TakeNone(entries);
      while todo != {}
        invariant todo <= groups.Keys
        invariant taken == map k | k in groups && k !in todo :: groups[k]
        invariant entries == Take(old(entries), taken) && removed == Members(taken)
        decreases todo
      {
        var e := Least(todo);
        todo := todo - {e};
        TakeOne(old(entries), taken, e, groups[e]);
        MembersMore(taken, e, groups[e]);
        removed := removed + groups[e];
        MustUpdateOrDelete(e, ExpirationSet(entries[e].onTime - groups[e], entries[e].early));
        taken := taken[e := groups[e]];
      }
      assert taken == groups;
      return Ok(removed);
    }

    /** The remaining sectors of an early set, with their information, lowest first. */
    method TakeRemaining(early: set<nat>, remaining: set<nat>, infos: Infos)
        returns (unset: set<nat>, items: seq<SectorInfo>)
      requires remaining <= infos.Keys
      ensures unset == early * remaining
      ensures (set i | i in items) == Items(infos, early * remaining)
    {
      unset, items := {}, [];
      var todo := early;
      while todo != {}
        invariant todo <= early && unset == (early - todo) * remaining
        invariant (set i | i in items) == Items(infos, unset)
        decreases todo
      {
        var s := Least(todo);
        todo := todo - {s};
        if s in remaining {
          ItemsOne(infos, unset, s);
          unset, items := unset + {s}, items + [SectorInfo(s, infos[s])];
        }
      }
    }

    /** Visits the entries in block order until every recovering sector has been seen, taking those
        found early off their entry. */
    method UnsetRecovering(infos: Infos, numbers: set<nat>) returns (remaining: set<nat>, rescheduled: seq<SectorInfo>)
      requires numbers <= infos.Keys
      modifies this
      ensures entries == Unset(old(entries), numbers, old(entries).Keys)
      ensures remaining == {} <==> forall s :: s in numbers ==> Mentioned(old(entries), s)
      ensures (set i | i in rescheduled) == Rescheduled(old(entries), infos, numbers)
    {
      remaining, rescheduled := numbers, [];
      var todo := entries.Keys;
      ghost var q, done := entries, {};
      assert MentionedIn(q, done) == {} && RescheduledIn(q, infos, numbers, done) == {} && Unset(q, numbers, done) == q;
      while todo != {}
        invariant done !! todo && done + todo == q.Keys
        invariant forall j, k :: j in done && k in todo ==> j < k
        invariant entries == Unset(q, numbers, done)
        invariant remaining == numbers - MentionedIn(q, done)
        invariant (set i | i in rescheduled) == RescheduledIn(q, infos, numbers, done)
        decreases todo
      {
        var e := Least(todo);
        UnsetMore(q, numbers, done, e);
        RecoveredIs(q, numbers, done, e);
        MentionedMore(q, done, e);
        RescheduledMore(q, infos, numbers, done, e);
        remaining := remaining - entries[e].onTime;
        var unset, items := TakeRemaining(entries[e].early, remaining, infos);
        remaining, rescheduled := remaining - unset, rescheduled + items;
        entries := entries[e := ExpirationSet(entries[e].onTime, entries[e].early - unset)];
        todo, done := todo - {e}, done + {e};
        if remaining == {} { break; }
      }
      RecoveredAll(q, infos, numbers, done);
      MentionedAll(q, numbers, done);
    }

    /** Recovering sectors leave the early sets and go back to their own expiration. */
    method RescheduleRecovered(infos: Infos, numbers: set<nat>) returns (r: Result<(), Error>)
      requires numbers <= infos.Keys
      modifies this
      ensures var s := Spec.RescheduleRecovered(old(entries), infos, numbers);
              if s.Ok? then r.Ok? && entries == s.value else r == Err(s.error)
    {
      var remaining, rescheduled := UnsetRecovering(infos, numbers);
      RetainIs(old(entries), numbers);
      entries := NonEmpty(entries);
      if remaining != {} { return Err(SectorNotFound); }
      AddActiveSectors(rescheduled);
      return Ok(());
    }

    /** Strikes numbers, lowest first, from one entry: from its on-time set, or else from its early set. */
    method StrikeEntry(e: ExpirationSet, numbers: set<nat>)
        returns (r: ExpirationSet, onTime: set<nat>, early: set<nat>)
      ensures r == StruckEntry(e, numbers)
      ensures onTime == e.onTime * numbers && early == (e.early - e.onTime) * numbers
    {
      r, onTime, early := e, {}, {};
      var todo := numbers;
      while todo != {}
        invariant todo <= numbers && r == StruckEntry(e, numbers - todo)
        invariant onTime == e.onTime * (numbers - todo) && early == (e.early - e.onTime) * (numbers - todo)
        decreases todo
      {
        var s := Least(todo);
        todo := todo - {s};
        if s in r.onTime {
          r, onTime := r.(onTime := r.onTime - {s}), onTime + {s};
        } else if s in r.early {
          r, early := r.(early := r.early - {s}), early + {s};
        }
      }
    }

    /** Strikes the faulty sectors from every entry; says what was found and what was not. */
    method StrikeAll(faulty: set<nat>) returns (found: ExpirationSet, remaining: set<nat>)
      modifies this
      ensures entries == Strike(old(entries), faulty)
      ensures found == ExpirationSet(StruckOnTime(old(entries), faulty), StruckEarly(old(entries), faulty))
      ensures remaining == {} <==> forall s :: s in faulty ==> Mentioned(old(entries), s)
    {
      found, remaining := EMPTY_SET, faulty;
      var todo := entries.Keys;
      ghost var q, done := entries, {};
      assert MentionedIn(q, done) == {} && StruckIn(q, faulty, done) == q && FoundIn(q, faulty, done) == EMPTY_SET;
      while todo != {}
        invariant done !! todo && done + todo == q.Keys
        invariant entries == StruckIn(q, faulty, done)
        invariant found == FoundIn(q, faulty, done)
        invariant remaining == faulty - MentionedIn(q, done)
        decreases todo
      {
        var e := Least(todo);
        StruckMore(q, faulty, done, e);
        FoundMore(q, faulty, done, e);
        MentionedMore(q, done, e);
        var struck, onTime, early := StrikeEntry(entries[e], faulty);
        entries := entries[e := struck];
        found := ExpirationSet(found.onTime + onTime, found.early + early);
        remaining := remaining - onTime - early;
        todo, done := todo - {e}, done + {e};
      }
      assert done == q.Keys;
      StruckAll(q, faulty);
      MentionedAll(q, faulty, done);
    }

    /** Healthy sectors are removed where they expire on time, faulty ones wherever they are found. */
    method RemoveSectors(infos: Infos, faults: set<nat>) returns (r: Result<ExpirationSet, Error>)
      modifies this
      ensures var s := Spec.RemoveSectors(old(entries), infos, faults);
              if s.Ok? then entries == s.value.0 && r == Ok(s.value.1) else r == Err(s.error)
    {
      var faulty, healthy := infos.Keys * faults, Healthy(infos, faults);
      var active := RemoveActiveSectors(healthy);
      if active.Err? { return Err(active.error); }
      var found, remaining := StrikeAll(faulty);
      if remaining != {} { return Err(SectorNotFound); }
      return Ok(ExpirationSet(active.value + found.onTime, found.early));
    }

    method PopUntil(until: nat) returns (popped: ExpirationSet)
      modifies this
      ensures popped == ExpirationSet(DueOnTime(old(entries), until), DueEarly(old(entries), until))
      ensures entries == After(old(entries), until)
    {
      var poppedKeys, onTime, early := {}, {}, {};
      var todo := entries.Keys;
      while todo != {}
        invariant todo <= entries.Keys && entries == old(entries)
        invariant poppedKeys == set k | k in entries && k !in todo && k <= until
        invariant onTime == set k, s | k in entries && k !in todo && k <= until && s in entries[k].onTime :: s
        invariant early == set k, s | k in entries && k !in todo && k <= until && s in entries[k].early :: s
        decreases todo
      {
        var e := Least(todo);
        todo := todo - {e};
        if e <= until {
          poppedKeys, onTime, early := poppedKeys + {e}, onTime + entries[e].onTime, early + entries[e].early;
        }
      }
      entries := entries - poppedKeys;
      popped := ExpirationSet(onTime, early);
    }
  }
}
