/** The queue of sector expirations of a partition (pallets/storage-provider/src/expiration_queue.rs).
    Each block maps to the sectors expiring on time and to those expiring early because of faults.
    Ordered maps and sets are iterated from the smallest key. */
module ExpirationQueue {
  import opened Results

  datatype Error =
    | ExpirationSetNotFound
    | SectorNotFound
    | DuplicateSectorNumber
    | FailedToAddFaults
    | FailedToRemoveRecoveries
    | SectorsNotLive
    | CannotPopUnprovenSectors
    | UnexpectedRecoveries
    | ExpiredSectorsAlreadyTerminated
    | PartitionNotFound
    | PartitionAlreadyProven
    | DeclaredSectorsNotFound
    | DeclaredSectorsNotFaulty
    | DeadlineIndexOutOfRange

  datatype SectorInfo = SectorInfo(number: nat, expiration: nat)

  /** The on-chain information of a provider's sectors: number to expiration. */
  type Infos = map<nat, nat>

  datatype ExpirationSet = ExpirationSet(onTime: set<nat>, early: set<nat>) {
    predicate IsEmpty() { onTime == {} && early == {} }

    function All(): set<nat> { onTime + early }

    function Len(): nat { |onTime| + |early| }
  }

  type Queue = map<nat, ExpirationSet>

  const EMPTY_SET := ExpirationSet({}, {})

  function Get(q: Queue, k: nat): ExpirationSet {
    if k in q then q[k] else EMPTY_SET
  }

  // ---------- the operations as functions ----------

  /** Sets under their block, replacing what was there; an empty set deletes the entry. */
  function UpdateOrDelete(q: Queue, k: nat, e: ExpirationSet): Queue {
    if e.IsEmpty() then q - {k} else q[k := e]
  }

  function AddTo(q: Queue, k: nat, onTime: set<nat>, early: set<nat>): Queue {
    if onTime == {} && early == {} then q
    else q[k := ExpirationSet(Get(q, k).onTime + onTime, Get(q, k).early + early)]
  }

  /** The numbers among items that expire at k. */
  function At(items: set<SectorInfo>, k: nat): set<nat> {
    set i | i in items && i.expiration == k :: i.number
  }

  /** Every item on time under its own expiration. */
  function AddActive(q: Queue, items: set<SectorInfo>): Queue {
    map k | k in q.Keys + (set i | i in items :: i.expiration) ::
      ExpirationSet(Get(q, k).onTime + At(items, k), Get(q, k).early)
  }

  /** The order in which entries are searched: declared expirations first, each part in block order. */
  predicate Precedes(declared: set<nat>, j: nat, k: nat) {
    if j in declared then k !in declared || j < k else k !in declared && j < k
  }

  /** The wanted sectors that the search finds at k: on time there and in no entry searched before. */
  function Group(q: Queue, infos: Infos, k: nat): set<nat>
    requires k in q
  {
    set s | s in q[k].onTime && s in infos && forall j :: j in q && Precedes(infos.Values, j, k) ==> s !in q[j].onTime
  }

  predicate OnTimeSomewhere(q: Queue, s: nat) {
    exists k :: k in q && s in q[k].onTime
  }

  function Find(q: Queue, infos: Infos): Result<map<nat, set<nat>>, Error> {
    if !(infos.Values <= q.Keys) then Err(ExpirationSetNotFound)
    else if exists s :: s in infos && !OnTimeSomewhere(q, s) then Err(SectorNotFound)
    else Ok(map k | k in q && Group(q, infos, k) != {} :: Group(q, infos, k))
  }

  /** Takes each group off the on-time set of its entry, deleting entries that become empty. */
  function Take(q: Queue, groups: map<nat, set<nat>>): Queue {
    map k | k in q && (k in groups ==> !ExpirationSet(q[k].onTime - groups[k], q[k].early).IsEmpty()) ::
      if k in groups then ExpirationSet(q[k].onTime - groups[k], q[k].early) else q[k]
  }

  function Later(groups: map<nat, set<nat>>, block: nat): map<nat, set<nat>> {
    map k | k in groups && k > block :: groups[k]
  }

  function Members(groups: map<nat, set<nat>>): set<nat> {
    set k, s | k in groups && s in groups[k] :: s
  }

  /** Moves active sectors that would expire after `block` to early expiration at `block`. */
  function RescheduleAsFaults(q: Queue, block: nat, infos: Infos): Result<Queue, Error> {
    var found := Find(q, infos);
    if found.Err? then Err(found.error)
    else
      var late := Later(found.value, block);
      Ok(AddTo(Take(q, late), block, {}, Members(late)))
  }

  /** No entry before k mentions s. */
  predicate UnseenBefore(q: Queue, s: nat, k: nat) {
    forall j :: j in q && j < k ==> s !in q[j].All()
  }

  /** The sectors to recover that the queue first mentions as early at k. */
  function Recovered(q: Queue, numbers: set<nat>, k: nat): set<nat>
    requires k in q
  {
    set s | s in q[k].early && s in numbers && s !in q[k].onTime && UnseenBefore(q, s, k)
  }

  function WithoutEarly(q: Queue, numbers: set<nat>): Queue {
    map k | k in q && !ExpirationSet(q[k].onTime, q[k].early - Recovered(q, numbers, k)).IsEmpty() ::
      ExpirationSet(q[k].onTime, q[k].early - Recovered(q, numbers, k))
  }

  predicate Mentioned(q: Queue, s: nat) {
    exists k :: k in q && s in q[k].All()
  }

  function Rescheduled(q: Queue, infos: Infos, numbers: set<nat>): set<SectorInfo>
    requires numbers <= infos.Keys
  {
    set k, s | k in q && s in Recovered(q, numbers, k) :: SectorInfo(s, infos[s])
  }

  /** Puts recovered sectors back on time at their own expiration. */
  function RescheduleRecovered(q: Queue, infos: Infos, numbers: set<nat>): Result<Queue, Error>
    requires numbers <= infos.Keys
  {
    if exists s :: s in numbers && !Mentioned(q, s) then Err(SectorNotFound)
    else Ok(AddActive(WithoutEarly(q, numbers), Rescheduled(q, infos, numbers)))
  }

  function Healthy(infos: Infos, faults: set<nat>): Infos {
    map s | s in infos && s !in faults :: infos[s]
  }

  /** Strikes numbers from every entry: from the on-time set, or else from the early set. */
  function Strike(q: Queue, numbers: set<nat>): Queue {
    map k | k in q :: ExpirationSet(q[k].onTime - numbers, q[k].early - (numbers - q[k].onTime))
  }

  function StruckOnTime(q: Queue, numbers: set<nat>): set<nat> {
    set k, s | k in q && s in q[k].onTime * numbers :: s
  }

  function StruckEarly(q: Queue, numbers: set<nat>): set<nat> {
    set k, s | k in q && s in (q[k].early - q[k].onTime) * numbers :: s
  }

  /** Removes sectors wherever they are scheduled; says which were on time and which early. */
  function RemoveSectors(q: Queue, infos: Infos, faults: set<nat>): Result<(Queue, ExpirationSet), Error> {
    var found := Find(q, Healthy(infos, faults));
    if found.Err? then Err(found.error)
    else
      var active := Take(q, found.value);
      var faulty := infos.Keys * faults;
      if exists s :: s in faulty && !Mentioned(active, s) then Err(SectorNotFound)
      else Ok((Strike(active, faulty),
               ExpirationSet(Members(found.value) + StruckOnTime(active, faulty), StruckEarly(active, faulty))))
  }

  function DueOnTime(q: Queue, until: nat): set<nat> {
    set k, s | k in q && k <= until && s in q[k].onTime :: s
  }

  function DueEarly(q: Queue, until: nat): set<nat> {
    set k, s | k in q && k <= until && s in q[k].early :: s
  }

  function After(q: Queue, until: nat): Queue {
    map k | k in q && k > until :: q[k]
  }
}
