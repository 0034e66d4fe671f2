/** A partition of sectors (pallets/storage-provider/src/partition.rs): five sector sets and the
    expiration queue, as values.  An error result stands for the whole call being discarded. */
module Partitions {
  import opened Results
  import opened ExpirationQueue

  datatype Partition = Partition(
    sectors: set<nat>,
    unproven: set<nat>,
    faults: set<nat>,
    recoveries: set<nat>,
    terminated: set<nat>,
    expirations: Queue,
    earlyTerminations: map<nat, set<nat>>)
  {
    function Live(): set<nat> { sectors - terminated }
  }

  const EMPTY_PARTITION := Partition({}, {}, {}, {}, {}, map[], map[])

  function Numbers(items: seq<SectorInfo>): set<nat> {
    set i | i in items :: i.number
  }

  predicate Duplicated(p: Partition, items: seq<SectorInfo>) {
    || (exists i :: 0 <= i < |items| && items[i].number in p.sectors)
    || (exists i, j :: 0 <= i < j < |items| && items[i].number == items[j].number)
  }

  function AddSectors(p: Partition, items: seq<SectorInfo>): Result<Partition, Error> {
    if Duplicated(p, items) then Err(DuplicateSectorNumber)
    else Ok(p.(expirations := AddActive(p.expirations, set i | i in items),
               sectors := p.sectors + Numbers(items),
               unproven := p.unproven + Numbers(items)))
  }

  function Restrict(infos: Infos, numbers: set<nat>): Infos {
    map s | s in infos && s in numbers :: infos[s]
  }

  /** Declared faults that are neither terminated nor already faulty; recovering ones are retractions. */
  function NewFaults(p: Partition, numbers: set<nat>): set<nat> {
    numbers - (p.recoveries * numbers) - p.terminated - p.faults
  }

  function AddFaults(p: Partition, infos: Infos, block: nat): Result<Partition, Error> {
    var q := RescheduleAsFaults(p.expirations, block, infos);
    if q.Err? then Err(FailedToAddFaults)
    else Ok(p.(expirations := q.value, faults := p.faults + infos.Keys, unproven := p.unproven - infos.Keys))
  }

  function RecordFaults(p: Partition, infos: Infos, numbers: set<nat>, block: nat)
      : Result<(Partition, set<nat>), Error> {
    var newFaults := NewFaults(p, numbers);
    var newInfos := Restrict(infos, newFaults);
    var added := if newInfos != map[] then AddFaults(p, newInfos, block) else Ok(p);
    if added.Err? then Err(added.error)
    else Ok((added.value.(recoveries := p.recoveries - (p.recoveries * numbers * infos.Keys)), newFaults))
  }

  function DeclareFaultsRecovered(p: Partition, numbers: set<nat>): Partition {
    p.(recoveries := p.recoveries + (numbers * p.faults))
  }

  function RecoverAllDeclaredRecoveries(p: Partition, infos: Infos): Result<Partition, Error>
    requires p.recoveries <= infos.Keys
  {
    var q := RescheduleRecovered(p.expirations, infos, p.recoveries);
    if q.Err? then Err(FailedToRemoveRecoveries)
    else Ok(p.(expirations := q.value, faults := p.faults - p.recoveries, recoveries := {}))
  }

  /** A proof of the partition: declared recoveries recover, and unproven sectors become proven. */
  function Prove(p: Partition, infos: Infos): Result<Partition, Error>
    requires p.recoveries <= infos.Keys
  {
    var r := RecoverAllDeclaredRecoveries(p, infos);
    if r.Err? then r else Ok(r.value.(unproven := {}))
  }

  function TerminateSectors(p: Partition, block: nat, infos: Infos, numbers: set<nat>)
      : Result<(Partition, ExpirationSet), Error> {
    if !(numbers <= p.Live()) then Err(SectorsNotLive)
    else
      var r := RemoveSectors(p.expirations, Restrict(infos, numbers), p.faults);
      if r.Err? then Err(r.error)
      else
        var removed := r.value.1.All();
        Ok((p.(expirations := r.value.0,
               earlyTerminations := p.earlyTerminations[block := removed],
               faults := p.faults - removed,
               recoveries := p.recoveries - removed,
               terminated := p.terminated + removed,
               unproven := p.unproven - removed),
            r.value.1))
  }

  function PopExpiredSectors(p: Partition, until: nat): Result<(Partition, ExpirationSet), Error> {
    if p.unproven != {} then Err(CannotPopUnprovenSectors)
    else
      var popped := ExpirationSet(DueOnTime(p.expirations, until), DueEarly(p.expirations, until));
      if p.recoveries != {} then Err(UnexpectedRecoveries)
      else if p.terminated * popped.All() != {} then Err(ExpiredSectorsAlreadyTerminated)
      else
        Ok((p.(expirations := After(p.expirations, until),
               terminated := p.terminated + popped.All(),
               faults := p.faults - popped.All(),
               earlyTerminations := p.earlyTerminations[until := popped.early]),
            popped))
  }
}
