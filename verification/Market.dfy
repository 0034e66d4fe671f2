/** The storage market (pallets/market/src/lib.rs) as functions on its storage: balances, deal
    proposals and the four indexes over them.  The currency is ideal: the market account holds exactly
    what was moved into it.  An error result stands for the call being rolled back. */
module Market {
  import opened Arith
  import opened Results

  type Account = nat
  type DealId = nat

  /** The largest balance, a u128. */
  const MAX_BALANCE: nat := 340282366920938463463374607431768211455

  datatype Error =
    | InsufficientFreeFunds
    | InsufficientWallet
    | Underflow
    | Overflow
    | Corruption
    | StorageProviderNotRegistered
    | NoProposalsToBePublished
    | PublishedByIncorrectStorageProvider
    | WrongClientSignature
    | InvalidPieceCid
    | DealEndBeforeStart
    | DealStartExpired
    | DealNotPublished
    | DealDurationOutOfBounds
    | DuplicateDeal
    | TooManyPendingDeals
    | TooManyDealsPerBlock
    | DealNotFound
    | InvalidCaller
    | DealIsNotActive
    | InvalidProvider
    | InvalidDealState
    | StartBlockElapsed
    | SectorExpiresBeforeDeal
    | DealNotPending
    | DealsTooLargeToFitIntoSector

  datatype Config = Config(minDuration: nat, maxDuration: nat, maxDeals: nat, maxDealsPerBlock: nat)

  datatype DealState = Published | Active(sector: nat, sectorStart: nat, lastUpdated: Option<nat>)

  /** A deal proposal; `piece` stands for the piece's identifier and label. */
  datatype Deal = Deal(
    piece: nat, pieceSize: nat, client: Account, provider: Account,
    start: nat, end: nat, price: nat, collateral: nat, state: DealState)
  {
    function Fee(): int { price * (end - start) }

    /** The block up to which the deal has been paid. */
    function PaidUntil(): nat {
      if state.Active? && state.lastUpdated.Some? then state.lastUpdated.value else start
    }

    /** What the client still has locked for the deal. */
    function Unpaid(): int { price * (end - PaidUntil()) }
  }

  datatype Entry = Entry(free: nat, locked: nat)

  type Balances = map<Account, Entry>

  /** How a deal left the market, and at which block. */
  datatype Outcome = Completed(block: nat) | Terminated(block: nat) | Expired(block: nat)

  /** What has happened to one deal ever published: its terms, whether it was activated, what was paid
      to the provider, returned to the client and burned, and how it left the market. */
  datatype Record = Record(terms: Deal, activated: bool, paid: int, refunded: int, slashed: int,
                           outcome: Option<Outcome>)

  type History = map<DealId, Record>

  datatype Market = Market(
    now: nat,
    balances: Balances,
    proposals: map<DealId, Deal>,
    nextDealId: DealId,
    pending: set<Deal>,
    dealsForBlock: map<nat, set<DealId>>,
    sectorDeals: map<(Account, nat), seq<DealId>>,
    pot: int,
    wallets: map<Account, nat>,
    issuance: int,
    history: History)

  // ---------- balances ----------

  function Get(b: Balances, a: Account): Entry {
    if a in b then b[a] else Entry(0, 0)
  }

  function LockFunds(b: Balances, a: Account, amount: nat): Result<Balances, Error> {
    var e := Get(b, a);
    if amount > e.free then Err(Underflow)
    else if e.locked + amount > MAX_BALANCE then Err(Overflow)
    else Ok(b[a := Entry(e.free - amount, e.locked + amount)])
  }

  function UnlockFunds(b: Balances, a: Account, amount: nat): Result<Balances, Error> {
    var e := Get(b, a);
    if amount > e.locked then Err(Underflow)
    else if e.free + amount > MAX_BALANCE then Err(Overflow)
    else Ok(b[a := Entry(e.free + amount, e.locked - amount)])
  }

  function Debit(b: Balances, a: Account, amount: nat): Result<Balances, Error> {
    var e := Get(b, a);
    if amount > e.locked then Err(Underflow) else Ok(b[a := Entry(e.free, e.locked - amount)])
  }

  function Credit(b: Balances, a: Account, amount: nat): Result<Balances, Error> {
    var e := Get(b, a);
    if e.free + amount > MAX_BALANCE then Err(Overflow) else Ok(b[a := Entry(e.free + amount, e.locked)])
  }

  /** From the client's locked funds to the provider's free funds. */
  function PerformStoragePayment(b: Balances, client: Account, provider: Account, amount: nat)
      : Result<Balances, Error> {
    var debited := Debit(b, client, amount);
    if debited.Err? then debited else Credit(debited.value, provider, amount)
  }

  /** Takes locked funds away and burns them from the market account and the issuance. */
  function SlashAndBurn(m: Market, a: Account, amount: nat): Result<Market, Error> {
    var debited := Debit(m.balances, a, amount);
    if debited.Err? then Err(debited.error)
    else if amount > m.pot then Err(Corruption)
    else Ok(m.(balances := debited.value, pot := m.pot - amount, issuance := m.issuance - amount))
  }

  function Wallet(m: Market, a: Account): nat {
    if a in m.wallets then m.wallets[a] else 0
  }

  function AddBalance(m: Market, who: Account, amount: nat): Result<Market, Error> {
    var credited := Credit(m.balances, who, amount);
    if credited.Err? then Err(credited.error)
    else if amount > Wallet(m, who) then Err(InsufficientWallet)
    else Ok(m.(balances := credited.value, pot := m.pot + amount, wallets := m.wallets[who := Wallet(m, who) - amount]))
  }

  function WithdrawBalance(m: Market, who: Account, amount: nat): Result<Market, Error> {
    var e := Get(m.balances, who);
    if amount > e.free then Err(InsufficientFreeFunds)
    else Ok(m.(balances := m.balances[who := Entry(e.free - amount, e.locked)],
               pot := m.pot - amount, wallets := m.wallets[who := Wallet(m, who) + amount]))
  }

  // ---------- publishing ----------

  datatype ClientDeal = ClientDeal(deal: Deal, signed: bool, pieceValid: bool)

  function SanityCheck(c: Config, offer: ClientDeal, provider: Account, now: nat): Result<(), Error> {
    var d := offer.deal;
    if !offer.signed then Err(WrongClientSignature)
    else if !offer.pieceValid then Err(InvalidPieceCid)
    else if d.provider != provider then Err(PublishedByIncorrectStorageProvider)
    else if d.start >= d.end then Err(DealEndBeforeStart)
    else if d.start < now then Err(DealStartExpired)
    else if d.state != Published then Err(DealNotPublished)
    else if d.end - d.start < c.minDuration then Err(DealDurationOutOfBounds)
    else if d.end - d.start > c.maxDuration then Err(DealDurationOutOfBounds)
    else Ok(())
  }

  /** What validation has added up so far. */
  datatype Checked = Checked(pending: set<Deal>, clientLockup: map<Account, int>, providerLockup: int)

  function Lockup(k: Checked, a: Account): int {
    if a in k.clientLockup then k.clientLockup[a] else 0
  }

  function ValidateOne(c: Config, m: Market, provider: Account, offer: ClientDeal, k: Checked): Result<Checked, Error> {
    var sane := SanityCheck(c, offer, provider, m.now);
    if sane.Err? then Err(sane.error)
    else
      var d := offer.deal;
      var clientLockup := Lockup(k, d.client) + d.Fee();
      var providerLockup := k.providerLockup + d.collateral;
      if clientLockup > MAX_BALANCE then Err(Overflow)
      else if clientLockup > Get(m.balances, d.client).free then Err(InsufficientFreeFunds)
      else if providerLockup > MAX_BALANCE then Err(Overflow)
      else if providerLockup > Get(m.balances, d.provider).free then Err(InsufficientFreeFunds)
      else if d in k.pending then Err(DuplicateDeal)
      else if |k.pending| >= c.maxDeals then Err(TooManyPendingDeals)
      else Ok(Checked(k.pending + {d}, k.clientLockup[d.client := clientLockup], providerLockup))
  }

  function ValidateAll(c: Config, m: Market, provider: Account, offers: seq<ClientDeal>): Result<Checked, Error> {
    if offers == [] then Ok(Checked(m.pending, map[], 0)) else
    var before := ValidateAll(c, m, provider, offers[..|offers| - 1]);
    if before.Err? then before else ValidateOne(c, m, provider, offers[|offers| - 1], before.value)
  }

  function ValidateDeals(c: Config, m: Market, caller: Account, offers: seq<ClientDeal>): Result<Checked, Error> {
    if offers == [] then Err(NoProposalsToBePublished)
    else if caller != offers[0].deal.provider then Err(PublishedByIncorrectStorageProvider)
    else ValidateAll(c, m, offers[0].deal.provider, offers)
  }

  function DealsAt(m: Market, block: nat): set<DealId> {
    if block in m.dealsForBlock then m.dealsForBlock[block] else {}
  }

  /** Books a published deal under the next identifier. */
  function Book(m: Market, balances: Balances, d: Deal): Market {
    var id := m.nextDealId;
    m.(balances := balances,
       nextDealId := id + 1,
       dealsForBlock := m.dealsForBlock[d.start := DealsAt(m, d.start) + {id}],
       proposals := m.proposals[id := d],
       history := m.history[id := Record(d, false, 0, 0, 0, None)])
  }

  function PublishOne(c: Config, m: Market, d: Deal): Result<Market, Error> {
    if d.Fee() < 0 then Err(Underflow)
    else
      var locked := LockFunds(m.balances, d.client, d.Fee());
      if locked.Err? then Err(locked.error)
      else if |DealsAt(m, d.start)| >= c.maxDealsPerBlock then Err(TooManyDealsPerBlock)
      else Ok(Book(m, locked.value, d))
  }

  function PublishAll(c: Config, m: Market, offers: seq<ClientDeal>): Result<Market, Error> {
    if offers == [] then Ok(m) else
    var before := PublishAll(c, m, offers[..|offers| - 1]);
    if before.Err? then before else PublishOne(c, before.value, offers[|offers| - 1].deal)
  }

  function PublishStorageDeals(c: Config, m: Market, provider: Account, registered: bool, offers: seq<ClientDeal>)
      : Result<Market, Error> {
    if !registered then Err(StorageProviderNotRegistered)
    else
      var checked := ValidateDeals(c, m, provider, offers);
      if checked.Err? then Err(checked.error)
      else
        var booked := PublishAll(c, m.(pending := checked.value.pending), offers);
        if booked.Err? then booked
        else if checked.value.providerLockup < 0 then Err(Underflow)
        else
          var locked := LockFunds(booked.value.balances, provider, checked.value.providerLockup);
          if locked.Err? then Err(locked.error) else Ok(booked.value.(balances := locked.value))
  }

  // ---------- settling ----------

  datatype Settlement =
    | Settled(id: DealId, amount: int)
    | NotFound(id: DealId)
    | EarlySettlement(id: DealId)
    | NotActive(id: DealId)
    | FutureLastUpdate(id: DealId)

  function Paying(h: History, id: DealId, amount: int): History {
    if id in h then h[id := h[id].(paid := h[id].paid + amount)] else h
  }

  function Leaving(h: History, id: DealId, refunded: int, slashed: int, outcome: Outcome): History {
    if id in h then h[id := h[id].(refunded := refunded, slashed := slashed, outcome := Some(outcome))] else h
  }

  function SettleOne(m: Market, id: DealId): Result<(Market, Settlement), Error> {
    if id !in m.proposals then Ok((m, NotFound(id)))
    else
      var d := m.proposals[id];
      if d.start > m.now then Ok((m, EarlySettlement(id)))
      else if !d.state.Active? then Ok((m, NotActive(id)))
      else if d.state.lastUpdated.Some? && d.state.lastUpdated.value > m.now then Ok((m, FutureLastUpdate(id)))
      else if d.PaidUntil() > d.end then Err(Corruption)
      else
        var until := if m.now >= d.end then d.end else m.now;
        var amount := d.price * (until - d.PaidUntil());
        if amount < 0 then Err(Underflow)
        else
          var paid := PerformStoragePayment(m.balances, d.client, d.provider, amount);
          if paid.Err? then Err(paid.error)
          else if m.now >= d.end then
            var unlocked := UnlockFunds(paid.value, d.provider, d.collateral);
            if unlocked.Err? then Err(unlocked.error)
            else
              Ok((m.(balances := unlocked.value, proposals := m.proposals - {id},
                     history := Leaving(Paying(m.history, id, amount), id, 0, 0, Completed(m.now))),
                  Settled(id, amount)))
          else
            Ok((m.(balances := paid.value,
                   proposals := m.proposals[id := d.(state := d.state.(lastUpdated := Some(m.now)))],
                   history := Paying(m.history, id, amount)),
                Settled(id, amount)))
  }

  function SettleDealPayments(m: Market, ids: seq<DealId>): Result<(Market, seq<Settlement>), Error> {
    if ids == [] then Ok((m, [])) else
    var before := SettleDealPayments(m, ids[..|ids| - 1]);
    if before.Err? then before else
    var r := SettleOne(before.value.0, ids[|ids| - 1]);
    if r.Err? then Err(r.error) else Ok((r.value.0, before.value.1 + [r.value.1]))
  }

  // ---------- activating ----------

  datatype SectorDeal = SectorDeal(sector: nat, expiry: nat, size: nat, deals: seq<DealId>)

  predicate Distinct(ids: seq<DealId>) {
    forall i, j :: 0 <= i < j < |ids| ==> ids[i] != ids[j]
  }

  /** Every deal named exists and none is named twice. */
  predicate ProposalsFound(m: Market, ids: seq<DealId>) {
    Distinct(ids) && forall i :: 0 <= i < |ids| ==> ids[i] in m.proposals
  }

  function CanActivate(m: Market, pending: set<Deal>, provider: Account, expiry: nat, id: DealId): Result<(), Error>
    requires id in m.proposals
  {
    var d := m.proposals[id];
    if provider != d.provider then Err(InvalidProvider)
    else if d.state != Published then Err(InvalidDealState)
    else if m.now > d.start then Err(StartBlockElapsed)
    else if expiry < d.end then Err(SectorExpiresBeforeDeal)
    else if d !in pending then Err(DealNotPending)
    else Ok(())
  }

  function DealSpace(m: Market, ids: seq<DealId>): nat
    requires forall i :: 0 <= i < |ids| ==> ids[i] in m.proposals
  {
    if ids == [] then 0 else DealSpace(m, ids[..|ids| - 1]) + m.proposals[ids[|ids| - 1]].pieceSize
  }

  /** A sector is activated with all its deals or not at all; `pending` is the index as the call found it. */
  predicate SectorValid(m: Market, pending: set<Deal>, provider: Account, s: SectorDeal) {
    && ProposalsFound(m, s.deals)
    && (forall i :: 0 <= i < |s.deals| ==> CanActivate(m, pending, provider, s.expiry, s.deals[i]).Ok?)
    && DealSpace(m, s.deals) <= s.size
  }

  function ActivateOne(m: Market, sector: nat, id: DealId): Market
    requires id in m.proposals
  {
    var d := m.proposals[id];
    m.(pending := m.pending - {d},
       proposals := m.proposals[id := d.(state := Active(sector, m.now, None))],
       history := if id in m.history then m.history[id := m.history[id].(activated := true)] else m.history)
  }

  function ActivateEach(m: Market, sector: nat, ids: seq<DealId>): (r: Market)
    requires forall i :: 0 <= i < |ids| ==> ids[i] in m.proposals
    ensures r.proposals.Keys == m.proposals.Keys
  {
    if ids == [] then m else ActivateOne(ActivateEach(m, sector, ids[..|ids| - 1]), sector, ids[|ids| - 1])
  }

  function ActivateSector(m: Market, pending: set<Deal>, provider: Account, s: SectorDeal): Market {
    if !SectorValid(m, pending, provider, s) then m
    else
      var m' := ActivateEach(m, s.sector, s.deals);
      m'.(sectorDeals := m'.sectorDeals[(provider, s.sector) := s.deals])
  }

  function ActivateAll(m: Market, pending: set<Deal>, provider: Account, sectors: seq<SectorDeal>): Market {
    if sectors == [] then m
    else ActivateSector(ActivateAll(m, pending, provider, sectors[..|sectors| - 1]), pending, provider,
                        sectors[|sectors| - 1])
  }

  function ActivateDeals(m: Market, provider: Account, sectors: seq<SectorDeal>): Market {
    ActivateAll(m, m.pending, provider, sectors)
  }

  // ---------- terminating ----------

  function CalculateStartBlock(start: nat, lastUpdated: Option<nat>): nat {
    if lastUpdated.Some? && lastUpdated.value > start then lastUpdated.value else start
  }

  /** Pays the provider, burns its collateral, returns the rest to the client and removes the deal. */
  function CloseTerminated(m: Market, id: DealId, d: Deal, payment: nat, rest: nat): Result<Market, Error> {
    var paid := PerformStoragePayment(m.balances, d.client, d.provider, payment);
    if paid.Err? then Err(paid.error)
    else
      var slashed := SlashAndBurn(m.(balances := paid.value), d.provider, d.collateral);
      if slashed.Err? then slashed
      else
        var unlocked := UnlockFunds(slashed.value.balances, d.client, rest);
        if unlocked.Err? then Err(unlocked.error)
        else
          Ok(slashed.value.(
               balances := unlocked.value, proposals := m.proposals - {id},
               history := Leaving(Paying(m.history, id, payment), id, rest, d.collateral, Terminated(m.now))))
  }

  function TerminateOne(m: Market, provider: Account, id: DealId): Result<Market, Error> {
    if id !in m.proposals then Err(DealNotFound)
    else
      var d := m.proposals[id];
      if provider != d.provider then Err(InvalidCaller)
      else if d.end <= m.now then Ok(m)
      else if !d.state.Active? then Err(DealIsNotActive)
      else
        var pending := if d.state.lastUpdated.None? then m.pending - {d} else m.pending;
        var from := CalculateStartBlock(d.start, d.state.lastUpdated);
        var until := if m.now < d.end then m.now else d.end;
        if until < from then Err(Underflow)
        else CloseTerminated(m.(pending := pending), id, d, d.price * (until - from), d.price * (d.end - until))
  }

  function TerminateEach(m: Market, provider: Account, ids: seq<DealId>): Result<Market, Error> {
    if ids == [] then Ok(m) else
    var before := TerminateEach(m, provider, ids[..|ids| - 1]);
    if before.Err? then before else TerminateOne(before.value, provider, ids[|ids| - 1])
  }

  function TerminateSector(m: Market, provider: Account, sector: nat): Result<Market, Error> {
    if (provider, sector) !in m.sectorDeals then Ok(m)
    else TerminateEach(m.(sectorDeals := m.sectorDeals - {(provider, sector)}), provider,
                       m.sectorDeals[(provider, sector)])
  }

  function OnSectorsTerminate(m: Market, provider: Account, sectors: seq<nat>): Result<Market, Error> {
    if sectors == [] then Ok(m) else
    var before := OnSectorsTerminate(m, provider, sectors[..|sectors| - 1]);
    if before.Err? then before else TerminateSector(before.value, provider, sectors[|sectors| - 1])
  }

  // ---------- the end of a block ----------

  /** A deal that is still only published at its start block is refunded, and its provider slashed.
      A step that fails leaves what was done before it. */
  function FinalizeOne(m: Market, id: DealId): Market {
    if id !in m.proposals then m
    else
      var d := m.proposals[id];
      if d.state.Active? || d.Fee() < 0 then m
      else
        var unlocked := UnlockFunds(m.balances, d.client, d.Fee());
        if unlocked.Err? then m
        else
          var m1 := m.(balances := unlocked.value);
          var slashed := SlashAndBurn(m1, d.provider, d.collateral);
          if slashed.Err? then m1
          else
            slashed.value.(proposals := m.proposals - {id}, pending := m.pending - {d},
                           history := Leaving(m.history, id, d.Fee(), d.collateral, Expired(m.now)))
  }

  function FinalizeEach(m: Market, ids: set<DealId>): Market
    decreases ids
  {
    if ids == {} then m else FinalizeEach(FinalizeOne(m, Least(ids)), ids - {Least(ids)})
  }

  function OnFinalize(m: Market): Market {
    if DealsAt(m, m.now) == {} then m
    else
      var m' := FinalizeEach(m, DealsAt(m, m.now));
      m'.(dealsForBlock := m'.dealsForBlock - {m.now})
  }
}
