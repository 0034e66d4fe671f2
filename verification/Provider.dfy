/** The deadlines of one storage provider and the early terminations recorded in them
    (pallets/storage-provider/src/storage_provider.rs), as values. */
module Providers {
  import opened Arith
  import opened Results
  import opened ExpirationQueue
  import opened Deadlines

  datatype Provider = Provider(deadlines: seq<Deadline>, earlyTerminations: set<nat>)

  /** The provider once deadline i has been popped; a deadline with nothing left is unmarked. */
  function AfterDeadlinePop(sp: Provider, i: nat, maxPartitions: nat, maxSectors: nat): Provider
    requires i < |sp.deadlines|
  {
    var (d, result, more) := Deadlines.PopEarlyTerminations(sp.deadlines[i], maxPartitions, maxSectors);
    Provider(sp.deadlines[i := d], if more then sp.earlyTerminations else sp.earlyTerminations - {i})
  }

  /** One more deadline popped.  The limits passed down are what is left of the caller's; they are
      unsigned, so this may not go below zero. */
  function PopOneDeadline(sp: Provider, i: nat, maxPartitions: nat, maxSectors: nat, so: TerminationResult)
      : (Provider, TerminationResult)
    requires i < |sp.deadlines| && so.partitionsProcessed <= maxPartitions && so.sectorsProcessed <= maxSectors
  {
    var leftPartitions, leftSectors := maxPartitions - so.partitionsProcessed, maxSectors - so.sectorsProcessed;
    (AfterDeadlinePop(sp, i, leftPartitions, leftSectors),
     so.Add(Deadlines.PopEarlyTerminations(sp.deadlines[i], leftPartitions, leftSectors).1))
  }

  /** Goes on with the deadlines in todo, given what has been collected so far. */
  function PopDeadlines(sp: Provider, todo: set<nat>, maxPartitions: nat, maxSectors: nat, so: TerminationResult)
      : Result<(Provider, TerminationResult), Error>
    requires so.partitionsProcessed <= maxPartitions && so.sectorsProcessed <= maxSectors
    decreases todo
  {
    if todo == {} then Ok((sp, so)) else
    var i := Least(todo);
    if i >= |sp.deadlines| then Err(DeadlineIndexOutOfRange)
    else
      var next := PopOneDeadline(sp, i, maxPartitions, maxSectors, so);
      if !next.1.BelowLimit(maxPartitions, maxSectors) then Ok(next)
      else PopDeadlines(next.0, todo - {i}, maxPartitions, maxSectors, next.1)
  }

  /** One round of the loop; r is what all rounds together give. */
  lemma {:induction false} PopDeadlinesUnfold(sp: Provider, i: nat, todo: set<nat>, maxPartitions: nat,
                                              maxSectors: nat, so: TerminationResult,
                                              r: Result<(Provider, TerminationResult), Error>, leftPartitions: nat,
                                              leftSectors: nat)
      returns (result: TerminationResult, sp': Provider, so': TerminationResult)
    requires todo != {} && i == Least(todo) && i < |sp.deadlines|
    requires so.partitionsProcessed <= maxPartitions && so.sectorsProcessed <= maxSectors
    requires leftPartitions == maxPartitions - so.partitionsProcessed && leftSectors == maxSectors - so.sectorsProcessed
    requires r == PopDeadlines(sp, todo, maxPartitions, maxSectors, so)
    ensures sp' == AfterDeadlinePop(sp, i, leftPartitions, leftSectors)
    ensures result == Deadlines.PopEarlyTerminations(sp.deadlines[i], leftPartitions, leftSectors).1
            && so' == so.Add(result)
    ensures so'.BelowLimit(maxPartitions, maxSectors)
            ==> r == PopDeadlines(sp', todo - {i}, maxPartitions, maxSectors, so')
    ensures !so'.BelowLimit(maxPartitions, maxSectors) ==> r == Ok((sp', so'))
  {
    var next := PopOneDeadline(sp, i, maxPartitions, maxSectors, so);
    result := Deadlines.PopEarlyTerminations(sp.deadlines[i], leftPartitions, leftSectors).1;
    sp', so' := next.0, next.1;
  }

  function PopEarlyTerminations(sp: Provider, maxPartitions: nat, maxSectors: nat)
      : Result<(Provider, TerminationResult), Error> {
    if sp.earlyTerminations == {} then Ok((sp, NO_TERMINATIONS))
    else PopDeadlines(sp, sp.earlyTerminations, maxPartitions, maxSectors, NO_TERMINATIONS)
  }

  /** Closing a deadline expires its due sectors and marks it if some of them expired early. */
  function CloseDeadline(sp: Provider, i: nat, until: nat): Result<(Provider, ExpirationSet), Error> {
    if i >= |sp.deadlines| then Err(DeadlineIndexOutOfRange)
    else
      var r := Deadlines.PopExpiredSectors(sp.deadlines[i], until);
      if r.Err? then Err(r.error)
      else
        var (d, expired) := r.value;
        Ok((Provider(sp.deadlines[i := d],
                     if expired.early != {} then sp.earlyTerminations + {i} else sp.earlyTerminations),
            expired))
  }

  /** Terminating sectors of a deadline marks it, whether or not any sector was named. */
  function TerminateIn(sp: Provider, i: nat, block: nat, infos: Infos, request: Request): Result<Provider, Error> {
    if i >= |sp.deadlines| then Err(DeadlineIndexOutOfRange)
    else
      var r := Deadlines.TerminateSectors(sp.deadlines[i], block, infos, request, request.Keys);
      if r.Err? then Err(r.error)
      else Ok(Provider(sp.deadlines[i := r.value], sp.earlyTerminations + {i}))
  }
}
