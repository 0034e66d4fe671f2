/** What each call does to a provider: exactly when it is carried out, what becomes of the deadline it is about,
    and that no other deadline is touched. */
module CallEffects {
  import opened ExpirationQueue
  import opened Deadlines
  import opened DeadlineSpec
  import opened DeadlineExact
  import opened DeadlineEffects
  import opened AddingEffects
  import opened Providers
  import opened ProviderRun
  import DI = DeadlineInvariant

  /** Nothing but deadline i has changed. */
  ghost predicate OnlyDeadline(w: World, w': World, i: nat, d': Deadline)
    requires i < |w.sp.deadlines|
  {
    w' == w.(sp := w.sp.(deadlines := w.sp.deadlines[i := d']))
  }

  /** New sectors are assigned exactly when they are registered and in no deadline yet. */
  lemma {:induction false} AssignCall(w: World, size: nat, i: nat, items: seq<SectorInfo>, w': World)
      returns (d': Deadline, homes: seq<nat>)
    requires Inv(w, size) && size > 0 && i < |w.sp.deadlines| && w' == Step(w, size, Assign(i, items))
    ensures !Unassigned(w, items) ==> w' == w
    ensures Unassigned(w, items) ==>
              var d := w.sp.deadlines[i];
              && OnlyDeadline(w, w', i, d') && d.totalSectors >= 0
              && InOrder(homes, d.totalSectors, size) && SectorsAdded(d, d', items, homes)
  {
    var d := w.sp.deadlines[i];
    assert Valid(d, w.infos, size);
    d', homes := d, [];
    if Unassigned(w, items) {
      DI.AddKeeps(d, w.infos, size, items);
      d' := Deadlines.AddSectors(d, size, items).value;
      homes := AddEffect(d, w.infos, size, items, d.totalSectors, d');
    }
  }

  lemma {:induction false} FaultsCall(w: World, size: nat, i: nat, request: Request, block: nat, w': World)
      returns (d': Deadline)
    requires Inv(w, size) && size > 0 && i < |w.sp.deadlines| && w' == Step(w, size, Faults(i, request, block))
    ensures var d := w.sp.deadlines[i];
            if FaultsAllowed(d, w.infos, request, request.Keys) then
              OnlyDeadline(w, w', i, d') && FaultsDeclared(d, d', w.infos, request, request.Keys, block)
            else w' == w
  {
    var d := w.sp.deadlines[i];
    assert Valid(d, w.infos, size);
    FaultsExact(d, w.infos, size, request, request.Keys, block);
    var r := Deadlines.RecordFaults(d, w.infos, request, request.Keys, block);
    d' := d;
    if r.Ok? {
      d' := r.value;
      FaultsEffect(d, w.infos, size, request, request.Keys, block, d');
    }
  }

  lemma {:induction false} RecoveriesCall(w: World, size: nat, i: nat, request: Request, w': World)
      returns (d': Deadline)
    requires size > 0 && i < |w.sp.deadlines| && w' == Step(w, size, Recoveries(i, request))
    ensures var d := w.sp.deadlines[i];
            if RecoveriesAllowed(d, w.infos, request, request.Keys) then
              OnlyDeadline(w, w', i, d') && RecoveriesDeclared(d, d', request, request.Keys)
            else w' == w
  {
    var d := w.sp.deadlines[i];
    RecoveriesExact(d, w.infos, request, request.Keys);
    var r := Deadlines.DeclareFaultsRecovered(d, w.infos, request, request.Keys);
    d' := d;
    if r.Ok? {
      d' := r.value;
      RecoveriesEffect(d, w.infos, request, request.Keys, d');
    }
  }

  lemma {:induction false} ProofCall(w: World, size: nat, i: nat, numbers: seq<nat>, w': World) returns (d': Deadline)
    requires Inv(w, size) && size > 0 && i < |w.sp.deadlines| && w' == Step(w, size, Proof(i, numbers))
    ensures var d := w.sp.deadlines[i];
            if ProofAllowed(d, numbers) then OnlyDeadline(w, w', i, d') && PartitionsProven(d, d', w.infos, numbers)
            else w' == w
  {
    var d := w.sp.deadlines[i];
    assert Valid(d, w.infos, size);
    ProvenExact(d, w.infos, size, numbers);
    var r := RecordProven(d, w.infos, numbers);
    d' := d;
    if r.Ok? {
      d' := r.value;
      ProvenEffect(d, w.infos, size, numbers, d');
    }
  }

  /** A termination also marks the deadline, whether or not any sector was named. */
  lemma {:induction false} TerminateCall(w: World, size: nat, i: nat, request: Request, block: nat, w': World)
      returns (d': Deadline)
    requires Inv(w, size) && size > 0 && i < |w.sp.deadlines| && w' == Step(w, size, Terminate(i, request, block))
    ensures var d := w.sp.deadlines[i];
            if TerminationsAllowed(d, request, request.Keys) then
              && w' == w.(sp := Provider(w.sp.deadlines[i := d'], w.sp.earlyTerminations + {i}))
              && SectorsEnded(d, d', request, request.Keys, block)
            else w' == w
  {
    var d := w.sp.deadlines[i];
    assert Valid(d, w.infos, size);
    TerminateExact(d, w.infos, size, block, request, request.Keys);
    var r := Deadlines.TerminateSectors(d, block, w.infos, request, request.Keys);
    d' := d;
    if r.Ok? {
      d' := r.value;
      TerminationsEffect(d, w.infos, size, block, request, request.Keys, d');
    }
  }
}
