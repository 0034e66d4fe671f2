/** What every reachable market state satisfies. */
module MarketSpec {
  import opened Results
  import opened Market
  import opened MarketLedger

  type Deals = map<DealId, Deal>

  /** A deal as the market keeps it: it runs for a while, it is published only until its start, and
      it has been paid up to a block inside its term that has come. */
  ghost predicate DealSane(d: Deal, now: nat) {
    && d.start < d.end
    && (d.state == Published ==> now <= d.start)
    && (d.state.Active? && d.state.lastUpdated.Some? ==>
          d.start <= d.state.lastUpdated.value < d.end && d.state.lastUpdated.value <= now)
  }

  ghost predicate Sane(ps: Deals, next: DealId, now: nat) {
    forall id :: id in ps ==> id < next && DealSane(ps[id], now)
  }

  /** Every account has locked exactly what its deals account for, less what one account still owes. */
  ghost predicate Owing(b: Balances, ps: Deals, next: DealId, debtor: Account, debt: int) {
    forall a :: Get(b, a).locked == Backing(ps, a, next) - (if a == debtor then debt else 0)
  }

  ghost predicate Backed(b: Balances, ps: Deals, next: DealId) {
    forall a :: Get(b, a).locked == Backing(ps, a, next)
  }

  /** The market account holds exactly the funds of all accounts, and all money is there or in wallets. */
  ghost predicate Solvent(b: Balances, pot: int, wallets: map<Account, nat>, issuance: int) {
    && pot == Total(b)
    && issuance == pot + Sum(wallets)
    && issuance <= MAX_BALANCE
  }

  ghost predicate PublishedAt(ps: Deals, id: DealId) {
    id in ps && ps[id].state == Published
  }

  ghost predicate PublishedDeal(ps: Deals, d: Deal) {
    exists id :: PublishedAt(ps, id) && ps[id] == d
  }

  /** The pending index holds exactly the published deals, of which no two are alike. */
  ghost predicate PendingExact(ps: Deals, pending: set<Deal>) {
    && (forall d :: d in pending <==> PublishedDeal(ps, d))
    && (forall i, j :: PublishedAt(ps, i) && PublishedAt(ps, j) && ps[i] == ps[j] ==> i == j)
  }

  type Schedule = map<nat, set<DealId>>

  ghost predicate Due(blocks: Schedule, b: nat, id: DealId) {
    b in blocks && id in blocks[b]
  }

  /** Published deals are scheduled at their start block, and schedules name only known deals of that block. */
  ghost predicate Scheduled(ps: Deals, next: DealId, blocks: Schedule) {
    && (forall id :: PublishedAt(ps, id) ==> Due(blocks, ps[id].start, id))
    && (forall b: nat, id: DealId :: Due(blocks, b, id) ==> id < next && (id in ps ==> ps[id].start == b))
  }

  type Sectors = map<(Account, nat), seq<DealId>>

  ghost predicate ActiveIn(d: Deal, provider: Account, sector: nat) {
    d.provider == provider && d.state.Active? && d.state.sector == sector
  }

  ghost predicate Lists(sectors: Sectors, provider: Account, sector: nat, id: DealId) {
    (provider, sector) in sectors && id in sectors[(provider, sector)]
  }

  /** A listed deal that still exists is active in that sector for that provider; none is listed twice there. */
  ghost predicate SectorsExact(ps: Deals, next: DealId, sectors: Sectors) {
    && (forall p: Account, s: nat, id: DealId :: Lists(sectors, p, s, id) ==>
          id < next && (id in ps ==> ActiveIn(ps[id], p, s)))
    && (forall k: (Account, nat) :: k in sectors ==> Distinct(sectors[k]))
  }

  // ---------- what became of each deal ----------

  /** The record of a deal in the market: its terms are kept, and it is paid up to its paid-until block. */
  ghost predicate Open(r: Record, d: Deal) {
    && d.(state := Published) == r.terms && r.outcome == None
    && r.refunded == 0 && r.slashed == 0
    && r.paid == d.price * (d.PaidUntil() - d.start)
    && (r.activated <==> d.state.Active?)
  }

  /** The record of a deal that has left the market, in one of three ways. */
  ghost predicate Closed(r: Record, now: nat) {
    var t := r.terms;
    && t.start < t.end && r.outcome.Some? && r.outcome.value.block <= now
    && match r.outcome.value
       case Completed(b) =>
         && r.activated && t.end <= b
         && r.paid == t.Fee() && r.refunded == 0 && r.slashed == 0
       case Terminated(b) =>
         && r.activated && t.start <= b < t.end
         && r.paid == t.price * (b - t.start) && r.refunded == t.price * (t.end - b)
         && r.slashed == t.collateral
       case Expired(b) =>
         && !r.activated && b == t.start
         && r.paid == 0 && r.refunded == t.Fee() && r.slashed == t.collateral
  }

  ghost predicate Accounted(ps: Deals, now: nat, h: History, id: DealId) {
    id in h && if id in ps then Open(h[id], ps[id]) else Closed(h[id], now)
  }

  ghost predicate AllAccounted(ps: Deals, next: DealId, now: nat, h: History) {
    && (forall id :: 0 <= id < next ==> Accounted(ps, now, h, id))
    && (forall id :: id in h ==> id < next)
  }

  /** All collateral burned so far. */
  ghost function Burned(h: History, n: nat): int {
    if n == 0 then 0 else Burned(h, n - 1) + (if n - 1 in h then h[n - 1].slashed else 0)
  }

  // ---------- what each account owns ----------

  /** An account's funds in the market. */
  ghost function Owns(b: Balances, a: Account): int {
    Get(b, a).free + Get(b, a).locked
  }

  /** What one deal has brought an account: paid as provider, less what was burned, less paid as client. */
  ghost function NetOf(r: Record, a: Account): int {
    (if r.terms.provider == a then r.paid - r.slashed else 0) - (if r.terms.client == a then r.paid else 0)
  }

  ghost function Net(h: History, a: Account, n: nat): int {
    if n == 0 then 0 else Net(h, a, n - 1) + (if n - 1 in h then NetOf(h[n - 1], a) else 0)
  }

  /** Every account owns, in its wallet and in the market, what it started with and what its deals brought it. */
  ghost predicate Fair(b: Balances, wallets: map<Account, nat>, h: History, next: DealId, start: map<Account, nat>) {
    forall a: Account :: At(wallets, a) + Owns(b, a) == At(start, a) + Net(h, a, next)
  }

  /** What the accounts own in the market changed as a deal's record did. */
  ghost predicate NetMoved(b: Balances, b': Balances, r: Record, r': Record) {
    forall a :: Owns(b', a) == Owns(b, a) + NetOf(r', a) - NetOf(r, a)
  }

  ghost predicate Indexed(m: Market) {
    && PendingExact(m.proposals, m.pending)
    && Scheduled(m.proposals, m.nextDealId, m.dealsForBlock)
    && SectorsExact(m.proposals, m.nextDealId, m.sectorDeals)
  }

  ghost predicate Inv(m: Market, start: map<Account, nat>) {
    && Sane(m.proposals, m.nextDealId, m.now)
    && Backed(m.balances, m.proposals, m.nextDealId)
    && Solvent(m.balances, m.pot, m.wallets, m.issuance)
    && Indexed(m)
    && AllAccounted(m.proposals, m.nextDealId, m.now, m.history)
    && m.issuance + Burned(m.history, m.nextDealId) == Sum(start)
    && Fair(m.balances, m.wallets, m.history, m.nextDealId, start)
  }
}

/** How each part of the invariant fares when one deal changes. */
module MarketParts {
  import opened Market
  import opened MarketLedger
  import opened MarketSpec

  // ---------- amounts ----------

  function Min(a: nat, b: nat): nat {
    if a < b then a else b
  }

  lemma {:induction false} SaneUnpaid(d: Deal, now: nat)
    requires DealSane(d, now)
    ensures d.start <= d.PaidUntil() <= d.end && 0 <= d.Unpaid() <= d.Fee()
    ensures d.Fee() == d.price * (d.PaidUntil() - d.start) + d.Unpaid()
  {
    PriceSplit(d.price, d.start, d.PaidUntil(), d.end);
  }

  lemma {:induction false} SaneNonNegative(ps: Deals, next: DealId, now: nat)
    requires Sane(ps, next, now)
    ensures NonNegative(ps)
  {
    forall id | id in ps ensures ps[id].Unpaid() >= 0 { SaneUnpaid(ps[id], now); }
  }

  /** What a deal accounts for is locked: its unpaid fee and its collateral can always be moved. */
  lemma {:induction false} DealCovered(b: Balances, ps: Deals, next: DealId, now: nat, id: DealId)
    requires Sane(ps, next, now) && Backed(b, ps, next) && id in ps
    ensures forall a :: Share(ps[id], a) <= Get(b, a).locked
    ensures 0 <= ps[id].Unpaid()
  {
    SaneNonNegative(ps, next, now);
    forall a ensures Share(ps[id], a) <= Get(b, a).locked { BackingCovers(ps, a, next, id); }
  }

  // ---------- backing ----------

  ghost predicate OnlyAt<T(!new)>(ps: map<DealId, T>, ps': map<DealId, T>, id: DealId) {
    forall k :: k != id ==> (k in ps' <==> k in ps) && (k in ps ==> ps'[k] == ps[k])
  }

  /** A change of one deal together with the matching change of locked funds keeps accounts backed. */
  lemma {:induction false} BackedChange(b: Balances, b': Balances, ps: Deals, ps': Deals, next: DealId, id: DealId)
    requires Backed(b, ps, next) && id < next && OnlyAt(ps, ps', id)
    requires forall a :: Get(b', a).locked == Get(b, a).locked + ShareAt(ps', id, a) - ShareAt(ps, id, a)
    ensures Backed(b', ps', next)
  {
    forall a ensures Get(b', a).locked == Backing(ps', a, next) {
      BackingChange(ps, ps', id, a, next);
    }
  }

  // ---------- indexes ----------

  lemma {:induction false} PendingRemove(ps: Deals, pending: set<Deal>, id: DealId)
    requires PendingExact(ps, pending) && id in ps
    ensures PendingExact(ps - {id}, pending - {ps[id]})
    ensures ps[id].state.Active? ==> pending - {ps[id]} == pending
  {
    var ps' := ps - {id};
    forall x ensures x in pending - {ps[id]} <==> PublishedDeal(ps', x) {
      if x in pending - {ps[id]} {
        var k :| PublishedAt(ps, k) && ps[k] == x;
        assert PublishedAt(ps', k) && ps'[k] == x;
      }
      if k :| PublishedAt(ps', k) && ps'[k] == x {
        assert PublishedAt(ps, k) && ps[k] == x && PublishedDeal(ps, x);
      }
    }
  }

  /** Replacing a deal by an active one. */
  lemma {:induction false} PendingReplace(ps: Deals, pending: set<Deal>, id: DealId, d: Deal)
    requires PendingExact(ps, pending) && id in ps && d.state.Active?
    ensures PendingExact(ps[id := d], pending - {ps[id]})
    ensures ps[id].state.Active? ==> pending - {ps[id]} == pending
  {
    var ps' := ps[id := d];
    forall x ensures x in pending - {ps[id]} <==> PublishedDeal(ps', x) {
      if x in pending - {ps[id]} {
        var k :| PublishedAt(ps, k) && ps[k] == x;
        assert PublishedAt(ps', k) && ps'[k] == x;
      }
      if k :| PublishedAt(ps', k) && ps'[k] == x {
        assert PublishedAt(ps, k) && ps[k] == x && PublishedDeal(ps, x);
      }
    }
  }

  lemma {:induction false} ScheduledChange(ps: Deals, ps': Deals, next: DealId, blocks: Schedule, id: DealId)
    requires Scheduled(ps, next, blocks) && id in ps && OnlyAt(ps, ps', id)
    requires id in ps' ==> ps'[id].state.Active? && ps'[id].start == ps[id].start
    ensures Scheduled(ps', next, blocks)
  {
    forall k | PublishedAt(ps', k) ensures Due(blocks, ps'[k].start, k) {
      assert PublishedAt(ps, k);
    }
    forall b: nat, k: DealId | Due(blocks, b, k) ensures k < next && (k in ps' ==> ps'[k].start == b) {
      assert k in ps' ==> k in ps;
    }
  }

  lemma {:induction false} SectorsChange(ps: Deals, ps': Deals, next: DealId, sectors: Sectors, id: DealId)
    requires SectorsExact(ps, next, sectors) && id in ps && OnlyAt(ps, ps', id)
    requires id in ps' ==> ps[id].state.Active? ==> ActiveIn(ps'[id], ps[id].provider, ps[id].state.sector)
    ensures SectorsExact(ps', next, sectors)
  {
    forall p: Account, s: nat, i: DealId | Lists(sectors, p, s, i)
        ensures i < next && (i in ps' ==> ActiveIn(ps'[i], p, s)) {
      assert i in ps' ==> i in ps;
    }
  }

  // ---------- records ----------

  lemma {:induction false} AccountedChange(ps: Deals, ps': Deals, next: DealId, now: nat, h: History, h': History,
                                           id: DealId)
    requires AllAccounted(ps, next, now, h) && OnlyAt(ps, ps', id) && OnlyAt(h, h', id) && id < next
    requires Accounted(ps', now, h', id)
    ensures AllAccounted(ps', next, now, h')
  {
    forall k | 0 <= k < next ensures Accounted(ps', now, h', k) {
      if k != id { assert Accounted(ps, now, h, k); }
    }
  }

  lemma {:induction false} BurnedChange(h: History, h': History, id: DealId, n: nat)
    requires id in h && id in h' && OnlyAt(h, h', id)
    ensures Burned(h', n) == Burned(h, n) + (if id < n then h'[id].slashed - h[id].slashed else 0)
  {
    if n > 0 { BurnedChange(h, h', id, n - 1); }
  }

  lemma {:induction false} NetChange(h: History, h': History, id: DealId, a: Account, n: nat)
    requires id in h && id in h' && OnlyAt(h, h', id)
    ensures Net(h', a, n) == Net(h, a, n) + (if id < n then NetOf(h'[id], a) - NetOf(h[id], a) else 0)
  {
    if n > 0 { NetChange(h, h', id, a, n - 1); }
  }

  /** A change of one record together with the matching changes of funds keeps the accounts fair. */
  lemma {:induction false} FairChange(b: Balances, b': Balances, wallets: map<Account, nat>, h: History, h': History,
                                      next: DealId,
                                      start: map<Account, nat>, id: DealId)
    requires Fair(b, wallets, h, next, start) && id in h && id in h' && OnlyAt(h, h', id) && id < next
    requires NetMoved(b, b', h[id], h'[id])
    ensures Fair(b', wallets, h', next, start)
  {
    forall a: Account ensures At(wallets, a) + Owns(b', a) == At(start, a) + Net(h', a, next) {
      NetChange(h, h', id, a, next);
    }
  }
}

/** Every market operation keeps the invariant, and under it none of its internal checks can fail. */
module MarketInvariant {
  import opened Results
  import opened Market
  import opened MarketLedger
  import opened MarketSpec
  import opened MarketParts

  // ---------- settling ----------

  /** The amount a settlement of an active deal pays at the current block. */
  ghost function Owed(d: Deal, now: nat): int {
    d.price * (Min(now, d.end) - d.PaidUntil())
  }

  ghost predicate Settleable(m: Market, id: DealId) {
    id in m.proposals && m.proposals[id].state.Active? && m.proposals[id].start <= m.now
  }

  /** The change of one active deal and its payment, on the parts of the state. */
  ghost predicate Paid(b: Balances, b': Balances, client: Account, provider: Account, amount: int) {
    && Total(b') == Total(b)
    && forall x :: && Get(b', x).free == Get(b, x).free + (if x == provider then amount else 0)
                   && Get(b', x).locked == Get(b, x).locked - (if x == client then amount else 0)
  }

  lemma {:induction false} PartialBacked(b: Balances, b': Balances, ps: Deals, next: DealId, id: DealId, d': Deal,
                                         amount: int)
    requires Backed(b, ps, next) && id in ps && id < next
    requires Paid(b, b', ps[id].client, ps[id].provider, amount)
    requires d'.client == ps[id].client && d'.provider == ps[id].provider && d'.collateral == ps[id].collateral
    requires d'.Unpaid() == ps[id].Unpaid() - amount
    ensures Backed(b', ps[id := d'], next)
  {
    BackedChange(b, b', ps, ps[id := d'], next, id);
  }

  lemma {:induction false} PartialRecord(r: Record, d: Deal, now: nat)
    requires Open(r, d) && d.state.Active? && DealSane(d, now) && d.start <= now < d.end
    ensures Open(r.(paid := r.paid + Owed(d, now)), d.(state := d.state.(lastUpdated := Some(now))))
  {
    PriceSplit(d.price, d.start, d.PaidUntil(), now);
  }

  /** A payment moves what the two accounts own as its record says. */
  lemma {:induction false} PaidNet(b: Balances, b': Balances, r: Record, amount: int)
    requires Paid(b, b', r.terms.client, r.terms.provider, amount)
    ensures NetMoved(b, b', r, r.(paid := r.paid + amount))
  {
  }

  lemma {:induction false} PartialKeeps(m: Market, m': Market, start: map<Account, nat>, id: DealId, paid: Balances)
    requires Inv(m, start) && Settleable(m, id) && m.now < m.proposals[id].end
    requires Paid(m.balances, paid, m.proposals[id].client, m.proposals[id].provider, Owed(m.proposals[id], m.now))
    requires var d := m.proposals[id];
             m' == m.(balances := paid,
                      proposals := m.proposals[id := d.(state := d.state.(lastUpdated := Some(m.now)))],
                      history := Paying(m.history, id, Owed(d, m.now)))
    ensures Inv(m', start)
  {
    var d, d' := m.proposals[id], m'.proposals[id];
    assert DealSane(d, m.now) && DealSane(d', m.now);
    PartialIndexed(m, m', id, d');
    PriceSplit(d.price, d.PaidUntil(), m.now, d.end);
    PartialBacked(m.balances, paid, m.proposals, m.nextDealId, id, d', Owed(d, m.now));
    PartialAccounted(m.balances, paid, m.wallets, m.proposals, m.nextDealId, m.now, m.history, start, id);
  }

  /** The indexes do not see how far an active deal is paid. */
  lemma {:induction false} PartialIndexed(m: Market, m': Market, id: DealId, d': Deal)
    requires Indexed(m) && id in m.proposals && m'.proposals == m.proposals[id := d']
    requires m.proposals[id].state.Active? && ActiveIn(d', m.proposals[id].provider, m.proposals[id].state.sector)
    requires d'.start == m.proposals[id].start
    requires m'.pending == m.pending && m'.nextDealId == m.nextDealId
    requires m'.dealsForBlock == m.dealsForBlock && m'.sectorDeals == m.sectorDeals
    ensures Indexed(m')
  {
    PendingReplace(m.proposals, m.pending, id, d');
    ScheduledChange(m.proposals, m'.proposals, m.nextDealId, m.dealsForBlock, id);
    SectorsChange(m.proposals, m'.proposals, m.nextDealId, m.sectorDeals, id);
  }

  lemma {:induction false} PartialAccounted(b: Balances, paid: Balances, wallets: map<Account, nat>, ps: Deals,
                                            next: DealId, now: nat,
                                            h: History, start: map<Account, nat>, id: DealId)
    requires AllAccounted(ps, next, now, h) && Fair(b, wallets, h, next, start)
    requires id in ps && id < next && DealSane(ps[id], now) && ps[id].state.Active? && ps[id].start <= now < ps[id].end
    requires Paid(b, paid, ps[id].client, ps[id].provider, Owed(ps[id], now))
    ensures var d, h' := ps[id], Paying(h, id, Owed(ps[id], now));
            && AllAccounted(ps[id := d.(state := d.state.(lastUpdated := Some(now)))], next, now, h')
            && Fair(paid, wallets, h', next, start) && Burned(h', next) == Burned(h, next)
  {
    var d, h' := ps[id], Paying(h, id, Owed(ps[id], now));
    assert Accounted(ps, now, h, id);
    PartialRecord(h[id], d, now);
    PaidNet(b, paid, h[id], Owed(d, now));
    FairChange(b, paid, wallets, h, h', next, start, id);
    AccountedChange(ps, ps[id := d.(state := d.state.(lastUpdated := Some(now)))], next, now, h, h', id);
    BurnedChange(h, h', id, next);
  }

  // ---------- leaving ----------

  /** All that account a has locked for a deal is gone. */
  ghost predicate Released(b: Balances, b': Balances, d: Deal) {
    forall a :: Get(b', a).locked == Get(b, a).locked - Share(d, a)
  }

  lemma {:induction false} LeaveBacked(b: Balances, b': Balances, ps: Deals, next: DealId, id: DealId)
    requires Backed(b, ps, next) && id in ps && id < next && Released(b, b', ps[id])
    ensures Backed(b', ps - {id}, next)
  {
    BackedChange(b, b', ps, ps - {id}, next, id);
  }

  /** A deal leaves, with what it locked released, its slashed part burned and its record closed. */
  lemma {:induction false} LeaveKeeps(m: Market, m': Market, start: map<Account, nat>, id: DealId, b: Balances,
                                      r: Record)
    requires Inv(m, start) && id in m.proposals
    requires Released(m.balances, b, m.proposals[id]) && Total(b) == Total(m.balances) - r.slashed
    requires Closed(r, m.now) && r.slashed >= 0 && id in m.history
    requires NetMoved(m.balances, b, m.history[id], r)
    requires m' == m.(balances := b, proposals := m.proposals - {id}, pending := m.pending - {m.proposals[id]},
                      pot := m.pot - r.slashed, issuance := m.issuance - r.slashed, history := m.history[id := r])
    ensures Inv(m', start)
  {
    var ps := m.proposals;
    PendingRemove(ps, m.pending, id);
    ScheduledChange(ps, m'.proposals, m.nextDealId, m.dealsForBlock, id);
    SectorsChange(ps, m'.proposals, m.nextDealId, m.sectorDeals, id);
    LeaveBacked(m.balances, b, ps, m.nextDealId, id);
    FairChange(m.balances, b, m.wallets, m.history, m'.history, m.nextDealId, start, id);
    assert Accounted(ps, m.now, m.history, id);
    AccountedChange(ps, m'.proposals, m.nextDealId, m.now, m.history, m'.history, id);
    BurnedChange(m.history, m'.history, id, m.nextDealId);
  }

  // ---------- settling ----------

  /** Paying what is unpaid and unlocking the collateral releases the deal. */
  lemma {:induction false} CompleteLedger(b: Balances, d: Deal, paid: Balances)
    requires Total(b) <= MAX_BALANCE && d.Unpaid() >= 0 && forall a :: Share(d, a) <= Get(b, a).locked
    requires Paid(b, paid, d.client, d.provider, d.Unpaid())
    ensures UnlockFunds(paid, d.provider, d.collateral).Ok?
    ensures Released(b, UnlockFunds(paid, d.provider, d.collateral).value, d)
    ensures Total(UnlockFunds(paid, d.provider, d.collateral).value) == Total(b)
    ensures forall a :: Owns(UnlockFunds(paid, d.provider, d.collateral).value, a) == Owns(paid, a)
  {
    assert Share(d, d.provider) <= Get(b, d.provider).locked;
    UnlockEffect(paid, d.provider, d.collateral);
  }

  lemma {:induction false} CompleteRecord(r: Record, d: Deal, now: nat)
    requires Open(r, d) && d.state.Active? && DealSane(d, now) && d.end <= now
    ensures Closed(r.(paid := r.paid + d.Unpaid(), refunded := 0, slashed := 0, outcome := Some(Completed(now))), now)
  {
    SaneUnpaid(d, now);
  }

  lemma {:induction false} CompleteKeeps(m: Market, m': Market, start: map<Account, nat>, id: DealId, paid: Balances,
                                         b: Balances)
    requires Inv(m, start) && Settleable(m, id) && m.now >= m.proposals[id].end
    requires Released(m.balances, b, m.proposals[id]) && Total(b) == Total(m.balances)
    requires Paid(m.balances, paid, m.proposals[id].client, m.proposals[id].provider, m.proposals[id].Unpaid())
    requires forall a :: Owns(b, a) == Owns(paid, a)
    requires m' == m.(balances := b, proposals := m.proposals - {id},
                      history := Leaving(Paying(m.history, id, m.proposals[id].Unpaid()), id, 0, 0, Completed(m.now)))
    ensures Inv(m', start)
  {
    var d := m.proposals[id];
    assert DealSane(d, m.now);
    assert Accounted(m.proposals, m.now, m.history, id);
    CompleteRecord(m.history[id], d, m.now);
    PaidNet(m.balances, paid, m.history[id], d.Unpaid());
    PendingRemove(m.proposals, m.pending, id);
    LeaveKeeps(m, m', start, id, b, m'.history[id]);
  }

  /** The payment due is locked. */
  lemma {:induction false} OwedLocked(b: Balances, d: Deal, now: nat)
    requires DealSane(d, now) && d.start <= now && forall a :: Share(d, a) <= Get(b, a).locked
    ensures 0 <= Owed(d, now) <= Get(b, d.client).locked
    ensures now >= d.end ==> Owed(d, now) == d.Unpaid()
  {
    SaneUnpaid(d, now);
    PriceSplit(d.price, d.PaidUntil(), Min(now, d.end), d.end);
    assert Share(d, d.client) <= Get(b, d.client).locked;
  }

  lemma {:induction false} SettlePays(m: Market, start: map<Account, nat>, id: DealId) returns (paid: Balances)
    requires Inv(m, start) && Settleable(m, id)
    ensures DealSane(m.proposals[id], m.now) && Owed(m.proposals[id], m.now) >= 0
    ensures forall a :: Share(m.proposals[id], a) <= Get(m.balances, a).locked
    ensures m.now >= m.proposals[id].end ==> Owed(m.proposals[id], m.now) == m.proposals[id].Unpaid() >= 0
    ensures var d := m.proposals[id];
            && PerformStoragePayment(m.balances, d.client, d.provider, Owed(d, m.now)) == Ok(paid)
            && Paid(m.balances, paid, d.client, d.provider, Owed(d, m.now))
  {
    var d := m.proposals[id];
    DealCovered(m.balances, m.proposals, m.nextDealId, m.now, id);
    OwedLocked(m.balances, d, m.now);
    PaymentEffect(m.balances, d.client, d.provider, Owed(d, m.now));
    paid := PerformStoragePayment(m.balances, d.client, d.provider, Owed(d, m.now)).value;
  }

  lemma {:induction false} SettlePartial(m: Market, id: DealId, paid: Balances)
    requires Settleable(m, id) && DealSane(m.proposals[id], m.now) && m.now < m.proposals[id].end
    requires var d := m.proposals[id];
             Owed(d, m.now) >= 0 && PerformStoragePayment(m.balances, d.client, d.provider, Owed(d, m.now)) == Ok(paid)
    ensures var d := m.proposals[id];
            SettleOne(m, id)
            == Ok((m.(balances := paid,
                      proposals := m.proposals[id := d.(state := d.state.(lastUpdated := Some(m.now)))],
                      history := Paying(m.history, id, Owed(d, m.now))),
                   Settled(id, Owed(d, m.now))))
  {
  }

  lemma {:induction false} SettleComplete(m: Market, id: DealId, paid: Balances, b: Balances)
    requires Settleable(m, id) && DealSane(m.proposals[id], m.now) && m.now >= m.proposals[id].end
    requires var d := m.proposals[id];
             && Owed(d, m.now) == d.Unpaid() >= 0
             && PerformStoragePayment(m.balances, d.client, d.provider, d.Unpaid()) == Ok(paid)
             && UnlockFunds(paid, d.provider, d.collateral) == Ok(b)
    ensures var d := m.proposals[id];
            SettleOne(m, id)
            == Ok((m.(balances := b, proposals := m.proposals - {id},
                      history := Leaving(Paying(m.history, id, d.Unpaid()), id, 0, 0, Completed(m.now))),
                   Settled(id, d.Unpaid())))
  {
  }

  /** Settling never fails; exactly the active deals that have started are paid, up to now or their end. */
  lemma {:induction false} SettleOneKeeps(m: Market, start: map<Account, nat>, id: DealId)
    requires Inv(m, start)
    ensures SettleOne(m, id).Ok?
    ensures Inv(SettleOne(m, id).value.0, start)
    ensures !Settleable(m, id) ==> SettleOne(m, id).value.0 == m
    ensures Settleable(m, id) ==> SettleOne(m, id).value.1 == Settled(id, Owed(m.proposals[id], m.now))
  {
    if Settleable(m, id) {
      var d := m.proposals[id];
      var paid := SettlePays(m, start, id);
      if m.now >= d.end {
        CompleteLedger(m.balances, d, paid);
        var b := UnlockFunds(paid, d.provider, d.collateral).value;
        SettleComplete(m, id, paid, b);
        CompleteKeeps(m, SettleOne(m, id).value.0, start, id, paid, b);
      } else {
        SettlePartial(m, id, paid);
        PartialKeeps(m, SettleOne(m, id).value.0, start, id, paid);
      }
    }
  }

  // ---------- settling a list ----------

  /** What is reported of a deal when it is settled for the first time in a call. */
  ghost function Report(m: Market, id: DealId): Settlement {
    if id !in m.proposals then NotFound(id)
    else if m.proposals[id].start > m.now then EarlySettlement(id)
    else if m.proposals[id].state == Published then NotActive(id)
    else Settled(id, Owed(m.proposals[id], m.now))
  }

  /** A started active deal that has ended completes when it is settled. */
  ghost predicate Completes(m: Market, id: DealId) {
    Settleable(m, id) && m.proposals[id].end <= m.now
  }

  /** ... and what is reported when it is named again: a completed deal is gone, another has nothing left to pay. */
  ghost function ReportAgain(m: Market, id: DealId): Settlement {
    if Completes(m, id) then NotFound(id) else if Settleable(m, id) then Settled(id, 0) else Report(m, id)
  }

  ghost function PaidUp(d: Deal, now: nat): Deal
    requires d.state.Active?
  {
    d.(state := d.state.(lastUpdated := Some(now)))
  }

  /** m' is m after the deals in ids have been settled: completed ones are gone, other started active ones are
      paid up to now, and no other deal changed. */
  ghost predicate SettledIn(m: Market, m': Market, ids: seq<DealId>) {
    && m'.now == m.now
    && (forall id :: id in m'.proposals <==> id in m.proposals && !(id in ids && Completes(m, id)))
    && (forall id :: id in m'.proposals ==>
          m'.proposals[id] == if id in ids && Settleable(m, id) then PaidUp(m.proposals[id], m.now)
              else m.proposals[id])
  }

  lemma {:induction false} NotSettled(m: Market, id: DealId)
    requires !Settleable(m, id)
    ensures SettleOne(m, id) == Ok((m, Report(m, id))) && SettledIn(m, m, [id])
  {
  }

  /** The deals once one of them is settled. */
  lemma {:induction false} SettledDeals(m: Market, start: map<Account, nat>, id: DealId) returns (ps: Deals)
    requires Inv(m, start) && Settleable(m, id)
    ensures SettleOne(m, id).Ok? && SettleOne(m, id).value.0.proposals == ps && SettleOne(m, id).value.0.now == m.now
    ensures ps == if m.proposals[id].end <= m.now then m.proposals - {id}
            else m.proposals[id := PaidUp(m.proposals[id], m.now)]
  {
    var d := m.proposals[id];
    var paid := SettlePays(m, start, id);
    if m.now >= d.end {
      CompleteLedger(m.balances, d, paid);
      SettleComplete(m, id, paid, UnlockFunds(paid, d.provider, d.collateral).value);
    } else {
      SettlePartial(m, id, paid);
    }
    ps := SettleOne(m, id).value.0.proposals;
  }

  lemma {:induction false} SettledAlone(m: Market, m': Market, id: DealId)
    requires Settleable(m, id) && m'.now == m.now
    requires m'.proposals == if m.proposals[id].end <= m.now then m.proposals - {id}
             else m.proposals[id := PaidUp(m.proposals[id], m.now)]
    ensures SettledIn(m, m', [id])
  {
  }

  lemma {:induction false} SettleOneExact(m: Market, start: map<Account, nat>, id: DealId) returns (m': Market)
    requires Inv(m, start)
    ensures SettleOne(m, id) == Ok((m', Report(m, id))) && Inv(m', start) && SettledIn(m, m', [id])
  {
    SettleOneKeeps(m, start, id);
    m' := SettleOne(m, id).value.0;
    if Settleable(m, id) {
      var ps := SettledDeals(m, start, id);
      SettledAlone(m, m', id);
    } else {
      NotSettled(m, id);
    }
  }

  lemma {:induction false} SettledSnoc(m: Market, m1: Market, m2: Market, init: seq<DealId>, id: DealId)
    requires SettledIn(m, m1, init) && SettledIn(m1, m2, [id])
    ensures SettledIn(m, m2, init + [id])
    ensures Report(m1, id) == if id in init then ReportAgain(m, id) else Report(m, id)
  {
    forall k ensures k in init + [id] <==> k in init || k == id { }
    if id in init && Settleable(m, id) && !Completes(m, id) {
      assert m1.proposals[id] == PaidUp(m.proposals[id], m.now);
    }
  }

  /** The log of a call: each deal as it is reported the first time, or again. */
  ghost predicate Reported(m: Market, ids: seq<DealId>, log: seq<Settlement>) {
    && |log| == |ids|
    && forall i :: 0 <= i < |ids| ==> log[i] == if ids[i] in ids[..i] then ReportAgain(m, ids[i]) else Report(m, ids[i])
  }

  lemma {:induction false} ReportedSnoc(m: Market, init: seq<DealId>, id: DealId, log: seq<Settlement>,
                                        last: Settlement)
    requires Reported(m, init, log) && last == if id in init then ReportAgain(m, id) else Report(m, id)
    ensures Reported(m, init + [id], log + [last])
  {
    var ids := init + [id];
    assert ids[..|init|] == init;
    forall i | 0 <= i < |init| ensures init[i] == ids[i] && init[..i] == ids[..i] { }
  }

  /** Settling any list of deals never fails and keeps the invariant; says what is reported of each deal,
      named for the first time or again, and what becomes of the deals. */
  lemma {:induction false} SettleKeeps(m: Market, start: map<Account, nat>, ids: seq<DealId>)
    requires Inv(m, start)
    ensures SettleDealPayments(m, ids).Ok?
    ensures Inv(SettleDealPayments(m, ids).value.0, start)
    ensures SettledIn(m, SettleDealPayments(m, ids).value.0, ids)
            && Reported(m, ids, SettleDealPayments(m, ids).value.1)
  {
    if ids != [] {
      var init, id := ids[..|ids| - 1], ids[|ids| - 1];
      SettleKeeps(m, start, init);
      var (m1, log) := SettleDealPayments(m, init).value;
      var m2 := SettleOneExact(m1, start, id);
      assert init + [id] == ids;
      SettleSnoc(m, ids, m1, log, m2, Report(m1, id));
      SettledSnoc(m, m1, m2, init, id);
      ReportedSnoc(m, init, id, log, Report(m1, id));
    }
  }

  lemma {:induction false} SettleSnoc(m: Market, ids: seq<DealId>, m1: Market, log: seq<Settlement>, m2: Market,
                                      last: Settlement)
    requires ids != [] && SettleDealPayments(m, ids[..|ids| - 1]) == Ok((m1, log))
             && SettleOne(m1, ids[|ids| - 1]) == Ok((m2, last))
    ensures SettleDealPayments(m, ids) == Ok((m2, log + [last]))
  {
  }
}
