/** Terminating and expiring deals keep the invariant. */
module MarketLifecycle {
  import opened Arith
  import opened Results
  import opened Market
  import opened MarketLedger
  import opened MarketSpec
  import opened MarketParts
  import opened MarketInvariant

  // ---------- terminating one deal ----------

  /** The three balance steps of a termination succeed and release the deal, burning its collateral. */
  lemma {:induction false} TerminateLedger(b: Balances, d: Deal, payment: nat, rest: nat)
      returns (paid: Balances, slashed: Balances, b': Balances)
    requires Total(b) <= MAX_BALANCE && payment + rest == d.Unpaid()
    requires forall a :: Share(d, a) <= Get(b, a).locked
    ensures PerformStoragePayment(b, d.client, d.provider, payment) == Ok(paid)
    ensures Debit(paid, d.provider, d.collateral) == Ok(slashed)
    ensures UnlockFunds(slashed, d.client, rest) == Ok(b')
    ensures Released(b, b', d) && Total(b') == Total(b) - d.collateral
    ensures ClosingMoved(b, b', d, payment)
  {
    assert Share(d, d.client) <= Get(b, d.client).locked && Share(d, d.provider) <= Get(b, d.provider).locked;
    PaymentEffect(b, d.client, d.provider, payment);
    paid := PerformStoragePayment(b, d.client, d.provider, payment).value;
    DebitEffect(paid, d.provider, d.collateral);
    slashed := Debit(paid, d.provider, d.collateral).value;
    UnlockEffect(slashed, d.client, rest);
    b' := UnlockFunds(slashed, d.client, rest).value;
  }

  /** A payment of the client to the provider, and the collateral gone. */
  ghost predicate ClosingMoved(b: Balances, b': Balances, d: Deal, payment: int) {
    forall a :: Owns(b', a) == Owns(b, a) + (if a == d.provider then payment - d.collateral else 0)
                                          - (if a == d.client then payment else 0)
  }

  lemma {:induction false} ClosingNet(b: Balances, b': Balances, d: Deal, payment: int, r: Record, r': Record)
    requires ClosingMoved(b, b', d, payment) && Open(r, d)
    requires r'.terms == r.terms && r'.paid == r.paid + payment && r'.slashed == d.collateral
    ensures NetMoved(b, b', r, r')
  {
  }

  ghost predicate Terminable(m: Market, provider: Account, id: DealId) {
    && id in m.proposals && m.proposals[id].provider == provider && m.proposals[id].state.Active?
    && m.proposals[id].start <= m.now < m.proposals[id].end
  }

  /** The deal's unpaid fee, split at the current block. */
  ghost predicate SplitNow(d: Deal, now: nat, payment: nat, rest: nat) {
    payment == d.price * (now - d.PaidUntil()) && rest == d.price * (d.end - now)
  }

  /** The record of a deal terminated now. */
  ghost function Ended(r: Record, d: Deal, payment: nat, rest: nat, now: nat): Record {
    r.(paid := r.paid + payment, refunded := rest, slashed := d.collateral, outcome := Some(Terminated(now)))
  }

  lemma {:induction false} TerminateUnfold(m: Market, provider: Account, id: DealId, payment: nat, rest: nat,
                                           paid: Balances, slashed: Balances, b: Balances)
    requires Terminable(m, provider, id) && DealSane(m.proposals[id], m.now) && m.proposals[id] !in m.pending
    requires SplitNow(m.proposals[id], m.now, payment, rest) && id in m.history
    requires var d := m.proposals[id];
             && PerformStoragePayment(m.balances, d.client, d.provider, payment) == Ok(paid)
             && Debit(paid, d.provider, d.collateral) == Ok(slashed) && d.collateral <= m.pot
             && UnlockFunds(slashed, d.client, rest) == Ok(b)
    ensures TerminateOne(m, provider, id)
            == Ok(AfterTermination(m, id, b, Ended(m.history[id], m.proposals[id], payment, rest, m.now)))
  {
    var d := m.proposals[id];
    assert m.pending - {d} == m.pending;
    assert CalculateStartBlock(d.start, d.state.lastUpdated) == d.PaidUntil();
    EndedIs(m.history, id, d, payment, rest, m.now);
  }

  lemma {:induction false} EndedIs(h: History, id: DealId, d: Deal, payment: nat, rest: nat, now: nat)
    requires id in h
    ensures Leaving(Paying(h, id, payment), id, rest, d.collateral, Terminated(now))
            == h[id := Ended(h[id], d, payment, rest, now)]
  {
  }

  /** The market without the deal, its collateral burned and its record closed. */
  ghost function AfterTermination(m: Market, id: DealId, b: Balances, r: Record): Market
    requires id in m.proposals
  {
    m.(balances := b, proposals := m.proposals - {id}, pending := m.pending - {m.proposals[id]},
       pot := m.pot - r.slashed, issuance := m.issuance - r.slashed, history := m.history[id := r])
  }

  lemma {:induction false} TerminateRecord(r: Record, d: Deal, now: nat, payment: nat, rest: nat)
    requires Open(r, d) && d.state.Active? && DealSane(d, now) && d.start <= now < d.end
             && SplitNow(d, now, payment, rest)
    ensures Closed(Ended(r, d, payment, rest, now), now)
  {
    PriceSplit(d.price, d.start, d.PaidUntil(), now);
  }

  /** A running deal's unpaid fee splits at the current block. */
  lemma {:induction false} SplitExists(d: Deal, now: nat) returns (payment: nat, rest: nat)
    requires DealSane(d, now) && d.state.Active? && d.start <= now < d.end
    ensures SplitNow(d, now, payment, rest) && payment + rest == d.Unpaid()
  {
    PriceSplit(d.price, d.PaidUntil(), now, d.end);
    payment, rest := d.price * (now - d.PaidUntil()), d.price * (d.end - now);
  }

  lemma {:induction false} TerminateSteps(m: Market, start: map<Account, nat>, provider: Account, id: DealId,
                                          payment: nat, rest: nat)
      returns (b: Balances)
    requires Inv(m, start) && Terminable(m, provider, id) && id in m.history
    requires SplitNow(m.proposals[id], m.now, payment, rest) && payment + rest == m.proposals[id].Unpaid()
    ensures TerminateOne(m, provider, id)
            == Ok(AfterTermination(m, id, b, Ended(m.history[id], m.proposals[id], payment, rest, m.now)))
    ensures Released(m.balances, b, m.proposals[id]) && Total(b) == Total(m.balances) - m.proposals[id].collateral
    ensures ClosingMoved(m.balances, b, m.proposals[id], payment)
  {
    assert DealSane(m.proposals[id], m.now);
    DealCovered(m.balances, m.proposals, m.nextDealId, m.now, id);
    var paid, slashed;
    paid, slashed, b := TerminateLedger(m.balances, m.proposals[id], payment, rest);
    PendingRemove(m.proposals, m.pending, id);
    TerminateUnfold(m, provider, id, payment, rest, paid, slashed, b);
  }

  lemma {:induction false} TerminatedKeeps(m: Market, start: map<Account, nat>, id: DealId, b: Balances, payment: int,
                                           r: Record)
    requires Inv(m, start) && id in m.proposals && id in m.history && Open(m.history[id], m.proposals[id])
    requires Released(m.balances, b, m.proposals[id]) && Total(b) == Total(m.balances) - m.proposals[id].collateral
    requires ClosingMoved(m.balances, b, m.proposals[id], payment) && Closed(r, m.now)
    requires r.terms == m.history[id].terms && r.paid == m.history[id].paid + payment
             && r.slashed == m.proposals[id].collateral
    ensures Inv(AfterTermination(m, id, b, r), start)
  {
    ClosingNet(m.balances, b, m.proposals[id], payment, m.history[id], r);
    LeaveKeeps(m, AfterTermination(m, id, b, r), start, id, b, r);
  }

  /** A termination closes the deal at the current block: paid up to now, the rest returned, the collateral burned. */
  lemma {:induction false} TerminableKeeps(m: Market, start: map<Account, nat>, provider: Account, id: DealId)
    requires Inv(m, start) && Terminable(m, provider, id)
    ensures TerminateOne(m, provider, id).Ok?
    ensures var m' := TerminateOne(m, provider, id).value;
            && Inv(m', start) && m'.proposals == m.proposals - {id}
            && m'.sectorDeals == m.sectorDeals && m'.nextDealId == m.nextDealId && m'.now == m.now
  {
    assert DealSane(m.proposals[id], m.now) && Accounted(m.proposals, m.now, m.history, id);
    var payment, rest := SplitExists(m.proposals[id], m.now);
    var b := TerminateSteps(m, start, provider, id, payment, rest);
    TerminateRecord(m.history[id], m.proposals[id], m.now, payment, rest);
    TerminatedKeeps(m, start, id, b, payment, Ended(m.history[id], m.proposals[id], payment, rest, m.now));
  }

  /** A listed deal's termination fails exactly when the deal is gone or has not started. */
  lemma {:induction false} TerminateOneKeeps(m: Market, start: map<Account, nat>, provider: Account, id: DealId)
    requires Inv(m, start)
    requires id in m.proposals ==> m.proposals[id].provider == provider && m.proposals[id].state.Active?
    ensures id !in m.proposals ==> TerminateOne(m, provider, id) == Err(DealNotFound)
    ensures id in m.proposals && m.now < m.proposals[id].start ==> TerminateOne(m, provider, id) == Err(Underflow)
    ensures id in m.proposals && m.proposals[id].start <= m.now ==>
              && TerminateOne(m, provider, id).Ok?
              && var m' := TerminateOne(m, provider, id).value;
                 && Inv(m', start)
                 && m'.proposals == (if m.now < m.proposals[id].end then m.proposals - {id} else m.proposals)
                 && m'.sectorDeals == m.sectorDeals && m'.nextDealId == m.nextDealId && m'.now == m.now
  {
    if id in m.proposals {
      assert DealSane(m.proposals[id], m.now);
      if Terminable(m, provider, id) { TerminableKeeps(m, start, provider, id); }
    }
  }

  // ---------- terminating sectors ----------

  /** The deals of m' are deals of m, and only deals in `gone` are missing. */
  ghost predicate Fewer(m: Market, m': Market, gone: set<DealId>) {
    && m'.now == m.now && m'.nextDealId == m.nextDealId
    && (forall k :: k in m'.proposals ==> k in m.proposals && m'.proposals[k] == m.proposals[k])
    && (forall k :: k in m.proposals && k !in gone ==> k in m'.proposals)
  }

  ghost predicate Startable(m: Market, id: DealId) {
    id in m.proposals && m.proposals[id].start <= m.now
  }

  ghost predicate ListedFor(m: Market, provider: Account, ids: seq<DealId>) {
    forall i :: 0 <= i < |ids| ==>
      ids[i] in m.proposals ==> m.proposals[ids[i]].provider == provider && m.proposals[ids[i]].state.Active?
  }

  ghost predicate AllStartable(m: Market, ids: seq<DealId>) {
    forall i :: 0 <= i < |ids| ==> Startable(m, ids[i])
  }

  /** Of the listed deals, only such as had ended are still there. */
  ghost predicate Spent(m: Market, m': Market, ids: seq<DealId>) {
    forall i :: 0 <= i < |ids| ==> ids[i] in m'.proposals ==> ids[i] in m.proposals && m.proposals[ids[i]].end <= m.now
  }

  ghost predicate Cleared(m: Market, m': Market, ids: seq<DealId>) {
    m'.sectorDeals == m.sectorDeals && Fewer(m, m', set id | id in ids) && Spent(m, m', ids)
  }

  lemma {:induction false} StartableSnoc(m: Market, ids: seq<DealId>)
    requires ids != []
    ensures AllStartable(m, ids) <==> AllStartable(m, ids[..|ids| - 1]) && Startable(m, ids[|ids| - 1])
  {
    var init := ids[..|ids| - 1];
    if AllStartable(m, init) && Startable(m, ids[|ids| - 1]) {
      forall i | 0 <= i < |ids| ensures Startable(m, ids[i]) { assert i < |init| ==> ids[i] == init[i]; }
    }
    if AllStartable(m, ids) {
      forall i | 0 <= i < |init| ensures Startable(m, init[i]) { assert ids[i] == init[i]; }
    }
  }

  lemma {:induction false} ClearedSnoc(m: Market, m1: Market, m2: Market, ids: seq<DealId>)
    requires ids != [] && Distinct(ids)
    requires Cleared(m, m1, ids[..|ids| - 1]) && Startable(m, ids[|ids| - 1])
    requires m2.sectorDeals == m1.sectorDeals && m2.nextDealId == m1.nextDealId && m2.now == m1.now
    requires m2.proposals == if m.now < m.proposals[ids[|ids| - 1]].end then m1.proposals - {ids[|ids| - 1]}
             else m1.proposals
    ensures Cleared(m, m2, ids)
  {
    var init := ids[..|ids| - 1];
    assert forall k :: k in ids <==> k in init || k == ids[|ids| - 1];
    forall i | 0 <= i < |ids| && ids[i] in m2.proposals
        ensures ids[i] in m.proposals && m.proposals[ids[i]].end <= m.now {
      if i < |init| { assert ids[i] == init[i]; }
    }
  }

  /** A fresh identifier's deal is untouched by terminating the others. */
  lemma {:induction false} LastUntouched(m: Market, m1: Market, ids: seq<DealId>)
    requires ids != [] && Distinct(ids) && Cleared(m, m1, ids[..|ids| - 1])
    ensures Startable(m1, ids[|ids| - 1]) <==> Startable(m, ids[|ids| - 1])
    ensures ids[|ids| - 1] in m1.proposals ==>
              ids[|ids| - 1] in m.proposals && m1.proposals[ids[|ids| - 1]] == m.proposals[ids[|ids| - 1]]
  {
    assert ids[|ids| - 1] !in ids[..|ids| - 1];
  }

  /** Terminating a list of deals succeeds exactly when each is there and has started. */
  lemma {:induction false} TerminateEachKeeps(m: Market, start: map<Account, nat>, provider: Account, ids: seq<DealId>)
    requires Inv(m, start) && Distinct(ids) && ListedFor(m, provider, ids)
    ensures TerminateEach(m, provider, ids).Ok? <==> AllStartable(m, ids)
    ensures TerminateEach(m, provider, ids).Err? ==> TerminateEach(m, provider, ids).error in {DealNotFound, Underflow}
    ensures TerminateEach(m, provider, ids).Ok? ==>
              Inv(TerminateEach(m, provider, ids).value, start)
                  && Cleared(m, TerminateEach(m, provider, ids).value, ids)
  {
    if ids != [] {
      var init, last := ids[..|ids| - 1], ids[|ids| - 1];
      TerminateEachKeeps(m, start, provider, init);
      StartableSnoc(m, ids);
      if AllStartable(m, init) {
        var m1 := TerminateEach(m, provider, init).value;
        LastUntouched(m, m1, ids);
        TerminateOneKeeps(m1, start, provider, last);
        if Startable(m, last) { ClearedSnoc(m, m1, TerminateOne(m1, provider, last).value, ids); }
      }
    }
  }

  lemma {:induction false} DropSectorKeeps(m: Market, start: map<Account, nat>, provider: Account, sector: nat)
    requires Inv(m, start) && (provider, sector) in m.sectorDeals
    ensures Inv(m.(sectorDeals := m.sectorDeals - {(provider, sector)}), start)
    ensures Distinct(m.sectorDeals[(provider, sector)]) && ListedFor(m, provider, m.sectorDeals[(provider, sector)])
  {
    var sectors := m.sectorDeals - {(provider, sector)};
    assert forall p: Account, s: nat, id: DealId :: Lists(sectors, p, s, id) ==> Lists(m.sectorDeals, p, s, id);
    var ids := m.sectorDeals[(provider, sector)];
    forall i | 0 <= i < |ids| && ids[i] in m.proposals
      ensures m.proposals[ids[i]].provider == provider && m.proposals[ids[i]].state.Active?
    {
      assert Lists(m.sectorDeals, provider, sector, ids[i]);
    }
  }

  /** Every deal listed for the sector is there and has started. */
  ghost predicate SectorStartable(m: Market, provider: Account, sector: nat) {
    forall id :: Lists(m.sectorDeals, provider, sector, id) ==> Startable(m, id)
  }

  ghost predicate ListedIn(m: Market, provider: Account, sectors: seq<nat>, id: DealId) {
    exists i :: 0 <= i < |sectors| && Lists(m.sectorDeals, provider, sectors[i], id)
  }

  /** The listings of the sectors are gone, and of their deals all are gone that had not ended; no other deal
      changed. */
  ghost predicate Swept(m: Market, m': Market, provider: Account, sectors: seq<nat>) {
    && m'.now == m.now && m'.nextDealId == m.nextDealId
    && m'.sectorDeals == m.sectorDeals - (set s | s in sectors :: (provider, s))
    && (forall k :: k in m'.proposals ==> k in m.proposals && m'.proposals[k] == m.proposals[k])
    && (forall k :: k in m.proposals && !ListedIn(m, provider, sectors, k) ==> k in m'.proposals)
    && (forall k :: k in m'.proposals && ListedIn(m, provider, sectors, k) ==> m.proposals[k].end <= m.now)
  }

  lemma {:induction false} TerminateSectorKeeps(m: Market, start: map<Account, nat>, provider: Account, sector: nat)
    requires Inv(m, start)
    ensures TerminateSector(m, provider, sector).Ok? <==> SectorStartable(m, provider, sector)
    ensures TerminateSector(m, provider, sector).Err?
            ==> TerminateSector(m, provider, sector).error in {DealNotFound, Underflow}
    ensures TerminateSector(m, provider, sector).Ok? ==>
              && Inv(TerminateSector(m, provider, sector).value, start)
              && Swept(m, TerminateSector(m, provider, sector).value, provider, [sector])
  {
    if (provider, sector) in m.sectorDeals {
      var ids, m0 := m.sectorDeals[(provider, sector)], m.(sectorDeals := m.sectorDeals - {(provider, sector)});
      DropSectorKeeps(m, start, provider, sector);
      TerminateEachKeeps(m0, start, provider, ids);
      SectorIsList(m, m0, provider, sector, ids);
      if AllStartable(m0, ids) { SweptList(m, m0, TerminateEach(m0, provider, ids).value, provider, sector, ids); }
    } else {
      assert m.sectorDeals - (set s | s in [sector] :: (provider, s)) == m.sectorDeals;
    }
  }

  lemma {:induction false} SectorIsList(m: Market, m0: Market, provider: Account, sector: nat, ids: seq<DealId>)
    requires (provider, sector) in m.sectorDeals && m.sectorDeals[(provider, sector)] == ids
    requires m0.proposals == m.proposals && m0.now == m.now
    ensures SectorStartable(m, provider, sector) <==> AllStartable(m0, ids)
  {
    if SectorStartable(m, provider, sector) {
      forall i | 0 <= i < |ids| ensures Startable(m0, ids[i]) { assert Lists(m.sectorDeals, provider, sector, ids[i]); }
    }
    if AllStartable(m0, ids) {
      forall id | Lists(m.sectorDeals, provider, sector, id) ensures Startable(m, id) {
        var i :| 0 <= i < |ids| && ids[i] == id;
        assert Startable(m0, ids[i]);
      }
    }
  }

  lemma {:induction false} SweptList(m: Market, m0: Market, m': Market, provider: Account, sector: nat,
                                     ids: seq<DealId>)
    requires (provider, sector) in m.sectorDeals && m.sectorDeals[(provider, sector)] == ids
    requires m0 == m.(sectorDeals := m.sectorDeals - {(provider, sector)}) && Cleared(m0, m', ids)
    ensures Swept(m, m', provider, [sector])
  {
    assert (set s | s in [sector] :: (provider, s)) == {(provider, sector)};
    forall k ensures ListedIn(m, provider, [sector], k) <==> k in ids {
      assert [sector][0] == sector;
      if k in ids { assert Lists(m.sectorDeals, provider, [sector][0], k); }
    }
    forall k | k in m'.proposals && k in ids ensures m.proposals[k].end <= m.now {
      var i :| 0 <= i < |ids| && ids[i] == k;
    }
  }

  /** What is listed for further sectors is unaffected by sweeping the first ones. */
  lemma {:induction false} SweptNext(m: Market, m1: Market, provider: Account, sectors: seq<nat>, s: nat)
    requires SectorsExact(m.proposals, m.nextDealId, m.sectorDeals) && Swept(m, m1, provider, sectors)
    requires forall i :: 0 <= i < |sectors| ==> SectorStartable(m, provider, sectors[i])
    ensures SectorStartable(m1, provider, s) <==> SectorStartable(m, provider, s)
  {
    if s in sectors {
      var i :| 0 <= i < |sectors| && sectors[i] == s;
      assert SectorStartable(m, provider, sectors[i]);
      assert (provider, s) !in m1.sectorDeals;
    } else {
      forall id ensures Lists(m1.sectorDeals, provider, s, id) <==> Lists(m.sectorDeals, provider, s, id) { }
      forall id | Lists(m.sectorDeals, provider, s, id) ensures Startable(m1, id) <==> Startable(m, id) {
        assert id in m.proposals ==> !ListedIn(m, provider, sectors, id);
      }
    }
  }

  lemma {:induction false} SweptSnoc(m: Market, m1: Market, m2: Market, provider: Account, sectors: seq<nat>)
    requires sectors != []
    requires Swept(m, m1, provider, sectors[..|sectors| - 1]) && Swept(m1, m2, provider, [sectors[|sectors| - 1]])
    ensures Swept(m, m2, provider, sectors)
  {
    var init, s := sectors[..|sectors| - 1], sectors[|sectors| - 1];
    assert forall t :: t in sectors <==> t in init || t in [s];
    forall k ensures ListedIn(m, provider, sectors, k)
        <==> ListedIn(m, provider, init, k) || ListedIn(m1, provider, [s], k) {
      ListedSnoc(m, m1, provider, sectors, k);
    }
    assert m2.sectorDeals.Keys == m.sectorDeals.Keys - (set t | t in sectors :: (provider, t));
  }

  lemma {:induction false} ListedSnoc(m: Market, m1: Market, provider: Account, sectors: seq<nat>, k: DealId)
    requires sectors != [] && m1.sectorDeals == m.sectorDeals - (set s | s in sectors[..|sectors| - 1] :: (provider, s))
    ensures ListedIn(m, provider, sectors, k) <==>
            ListedIn(m, provider, sectors[..|sectors| - 1], k) || ListedIn(m1, provider, [sectors[|sectors| - 1]], k)
  {
    var init, s := sectors[..|sectors| - 1], sectors[|sectors| - 1];
    if i :| 0 <= i < |sectors| && Lists(m.sectorDeals, provider, sectors[i], k) {
      if sectors[i] in init {
        var j :| 0 <= j < |init| && init[j] == sectors[i];
        assert Lists(m.sectorDeals, provider, init[j], k);
      } else {
        assert sectors[i] == s && Lists(m1.sectorDeals, provider, [s][0], k);
      }
    }
    if i :| 0 <= i < |init| && Lists(m.sectorDeals, provider, init[i], k) {
      assert Lists(m.sectorDeals, provider, sectors[i], k);
    }
    if Lists(m1.sectorDeals, provider, [s][0], k) {
      assert Lists(m.sectorDeals, provider, sectors[|sectors| - 1], k);
    }
  }

  /** Sector termination succeeds exactly when every listed deal is still in the market and has started;
      it then sweeps the listings, keeps the invariant and touches no other deal. */
  lemma {:induction false} OnSectorsTerminateKeeps(m: Market, start: map<Account, nat>, provider: Account,
                                                   sectors: seq<nat>)
    requires Inv(m, start)
    ensures OnSectorsTerminate(m, provider, sectors).Ok? <==>
            forall i :: 0 <= i < |sectors| ==> SectorStartable(m, provider, sectors[i])
    ensures OnSectorsTerminate(m, provider, sectors).Err? ==>
              OnSectorsTerminate(m, provider, sectors).error in {DealNotFound, Underflow}
    ensures OnSectorsTerminate(m, provider, sectors).Ok? ==>
              && Inv(OnSectorsTerminate(m, provider, sectors).value, start)
              && Swept(m, OnSectorsTerminate(m, provider, sectors).value, provider, sectors)
  {
    if sectors != [] {
      var init, s := sectors[..|sectors| - 1], sectors[|sectors| - 1];
      OnSectorsTerminateKeeps(m, start, provider, init);
      assert sectors == init + [s];
      if OnSectorsTerminate(m, provider, init).Ok? {
        var m1 := OnSectorsTerminate(m, provider, init).value;
        SweptNext(m, m1, provider, init, s);
        TerminateSectorKeeps(m1, start, provider, s);
        if SectorStartable(m, provider, s) {
          SweptSnoc(m, m1, TerminateSector(m1, provider, s).value, provider, sectors);
        }
      }
    }
  }

  // ---------- the end of a block ----------

  /** Refunding the fee and slashing the collateral of a published deal release it. */
  lemma {:induction false} ExpireLedger(b: Balances, d: Deal) returns (unlocked: Balances, b': Balances)
    requires Total(b) <= MAX_BALANCE && d.Fee() == d.Unpaid() >= 0
    requires forall a :: Share(d, a) <= Get(b, a).locked
    ensures UnlockFunds(b, d.client, d.Fee()) == Ok(unlocked)
    ensures Debit(unlocked, d.provider, d.collateral) == Ok(b')
    ensures Released(b, b', d) && Total(b') == Total(b) - d.collateral
    ensures ClosingMoved(b, b', d, 0)
  {
    assert Share(d, d.client) <= Get(b, d.client).locked && Share(d, d.provider) <= Get(b, d.provider).locked;
    UnlockEffect(b, d.client, d.Fee());
    unlocked := UnlockFunds(b, d.client, d.Fee()).value;
    DebitEffect(unlocked, d.provider, d.collateral);
    b' := Debit(unlocked, d.provider, d.collateral).value;
  }

  lemma {:induction false} FinalizeUnfold(m: Market, id: DealId, unlocked: Balances, b: Balances)
    requires PublishedAt(m.proposals, id) && m.proposals[id].Fee() >= 0
    requires var d := m.proposals[id];
             && UnlockFunds(m.balances, d.client, d.Fee()) == Ok(unlocked)
             && Debit(unlocked, d.provider, d.collateral) == Ok(b) && d.collateral <= m.pot
    ensures var d := m.proposals[id];
            FinalizeOne(m, id)
            == m.(balances := b, proposals := m.proposals - {id}, pending := m.pending - {d},
                  pot := m.pot - d.collateral, issuance := m.issuance - d.collateral,
                  history := Leaving(m.history, id, d.Fee(), d.collateral, Expired(m.now)))
  {
  }

  lemma {:induction false} ExpireSteps(m: Market, start: map<Account, nat>, id: DealId) returns (b: Balances)
    requires Inv(m, start) && PublishedAt(m.proposals, id)
    ensures var d := m.proposals[id];
            FinalizeOne(m, id)
            == m.(balances := b, proposals := m.proposals - {id}, pending := m.pending - {d},
                  pot := m.pot - d.collateral, issuance := m.issuance - d.collateral,
                  history := Leaving(m.history, id, d.Fee(), d.collateral, Expired(m.now)))
    ensures Released(m.balances, b, m.proposals[id]) && Total(b) == Total(m.balances) - m.proposals[id].collateral
    ensures ClosingMoved(m.balances, b, m.proposals[id], 0)
  {
    var d := m.proposals[id];
    assert DealSane(d, m.now);
    DealCovered(m.balances, m.proposals, m.nextDealId, m.now, id);
    var unlocked;
    unlocked, b := ExpireLedger(m.balances, d);
    FinalizeUnfold(m, id, unlocked, b);
  }

  /** Only a deal that is still published is affected; at its start it is refunded and slashed in full. */
  lemma {:induction false} FinalizeOneKeeps(m: Market, start: map<Account, nat>, id: DealId)
    requires Inv(m, start) && (PublishedAt(m.proposals, id) ==> m.proposals[id].start == m.now)
    ensures var m' := FinalizeOne(m, id);
            && Inv(m', start)
            && m'.proposals == (if PublishedAt(m.proposals, id) then m.proposals - {id} else m.proposals)
            && m'.now == m.now && m'.nextDealId == m.nextDealId
            && m'.dealsForBlock == m.dealsForBlock && m'.sectorDeals == m.sectorDeals
  {
    if PublishedAt(m.proposals, id) {
      var b := ExpireSteps(m, start, id);
      var m' := FinalizeOne(m, id);
      assert DealSane(m.proposals[id], m.now) && Accounted(m.proposals, m.now, m.history, id);
      ClosingNet(m.balances, b, m.proposals[id], 0, m.history[id], m'.history[id]);
      LeaveKeeps(m, m', start, id, b, m'.history[id]);
    }
  }

  ghost predicate StartNow(m: Market, ids: set<DealId>) {
    forall id :: id in ids && PublishedAt(m.proposals, id) ==> m.proposals[id].start == m.now
  }

  /** Exactly the published deals among ids are missing from m'. */
  ghost predicate ExpiredFrom(m: Market, m': Market, ids: set<DealId>) {
    && m'.now == m.now && m'.nextDealId == m.nextDealId
    && m'.dealsForBlock == m.dealsForBlock && m'.sectorDeals == m.sectorDeals
    && forall k :: && (k in m'.proposals <==> k in m.proposals && !(k in ids && PublishedAt(m.proposals, k)))
                   && (k in m'.proposals ==> m'.proposals[k] == m.proposals[k])
  }

  lemma {:induction false} FinalizeEachKeeps(m: Market, start: map<Account, nat>, ids: set<DealId>)
    requires Inv(m, start) && StartNow(m, ids)
    ensures Inv(FinalizeEach(m, ids), start) && ExpiredFrom(m, FinalizeEach(m, ids), ids)
    decreases ids
  {
    if ids != {} {
      var id := Least(ids);
      FinalizeOneKeeps(m, start, id);
      FinalizeEachKeeps(FinalizeOne(m, id), start, ids - {id});
    }
  }

  /** At the end of a block every deal that should have started and was not activated leaves. */
  lemma {:induction false} OnFinalizeKeeps(m: Market, start: map<Account, nat>)
    requires Inv(m, start)
    ensures Inv(OnFinalize(m), start) && OnFinalize(m).now == m.now
    ensures forall k :: PublishedAt(OnFinalize(m).proposals, k) ==> m.now < OnFinalize(m).proposals[k].start
    ensures forall k :: k in OnFinalize(m).proposals <==>
              k in m.proposals && !(PublishedAt(m.proposals, k) && m.proposals[k].start == m.now)
    ensures forall k :: k in OnFinalize(m).proposals ==> OnFinalize(m).proposals[k] == m.proposals[k]
    ensures forall b :: DealsAt(OnFinalize(m), b) == if b == m.now then {} else DealsAt(m, b)
    ensures OnFinalize(m).sectorDeals == m.sectorDeals && OnFinalize(m).nextDealId == m.nextDealId
  {
    var ids := DealsAt(m, m.now);
    forall id | id in ids && PublishedAt(m.proposals, id) ensures m.proposals[id].start == m.now {
      assert Due(m.dealsForBlock, m.now, id);
    }
    forall id | PublishedAt(m.proposals, id) && m.proposals[id].start == m.now ensures id in ids {
      assert Due(m.dealsForBlock, m.now, id);
    }
    FinalizeEachKeeps(m, start, ids);
    var m1 := FinalizeEach(m, ids);
    ForgetBlock(m1, start);
    forall k | PublishedAt(OnFinalize(m).proposals, k) ensures m.now < OnFinalize(m).proposals[k].start {
      assert PublishedAt(m.proposals, k) && DealSane(m.proposals[k], m.now);
    }
  }

  lemma {:induction false} ForgetBlock(m: Market, start: map<Account, nat>)
    requires Inv(m, start)
    requires forall k :: PublishedAt(m.proposals, k) ==> m.proposals[k].start != m.now
    ensures Inv(m.(dealsForBlock := m.dealsForBlock - {m.now}), start)
  {
    var blocks := m.dealsForBlock - {m.now};
    forall id | PublishedAt(m.proposals, id) ensures Due(blocks, m.proposals[id].start, id) {
      assert Due(m.dealsForBlock, m.proposals[id].start, id);
    }
    assert forall b: nat, id: DealId :: Due(blocks, b, id) ==> Due(m.dealsForBlock, b, id);
  }

  /** The next block. */
  lemma {:induction false} TickKeeps(m: Market, start: map<Account, nat>)
    requires Inv(m, start)
    requires forall k :: PublishedAt(m.proposals, k) ==> m.now < m.proposals[k].start
    ensures Inv(m.(now := m.now + 1), start)
  {
    forall id | id in m.proposals ensures DealSane(m.proposals[id], m.now + 1) {
      assert DealSane(m.proposals[id], m.now);
      assert PublishedAt(m.proposals, id) <==> m.proposals[id].state == Published;
    }
    var later := m.now + 1;
    forall id | 0 <= id < m.nextDealId ensures Accounted(m.proposals, later, m.history, id) {
      assert Accounted(m.proposals, m.now, m.history, id);
    }
  }
}
