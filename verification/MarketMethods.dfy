/** The market as the storage the pallet mutates (pallets/market/src/lib.rs): its calls are loops over
    deals and sectors, proved to do what the market functions say.  After an error the whole call is
    rolled back, so errors say nothing about the storage. */
module MarketMethods {
  import opened Arith
  import opened Results
  import opened Spec = Market

  // ---------- a failing prefix fails the whole call ----------

  lemma {:induction false} SettleFails(m: Market, ids: seq<DealId>, i: nat)
    requires i <= |ids| && SettleDealPayments(m, ids[..i]).Err?
    ensures SettleDealPayments(m, ids) == SettleDealPayments(m, ids[..i])
    decreases |ids| - i
  {
    if i < |ids| {
      assert ids[..i + 1][..i] == ids[..i];
      SettleFails(m, ids, i + 1);
    } else {
      assert ids[..i] == ids;
    }
  }

  lemma {:induction false} ValidateFails(c: Config, m: Market, provider: Account, offers: seq<ClientDeal>, i: nat)
    requires i <= |offers| && ValidateAll(c, m, provider, offers[..i]).Err?
    ensures ValidateAll(c, m, provider, offers) == ValidateAll(c, m, provider, offers[..i])
    decreases |offers| - i
  {
    if i < |offers| {
      assert offers[..i + 1][..i] == offers[..i];
      ValidateFails(c, m, provider, offers, i + 1);
    } else {
      assert offers[..i] == offers;
    }
  }

  lemma {:induction false} ValidateSame(c: Config, m: Market, pending: set<Deal>, provider: Account, o: ClientDeal,
                                        k: Checked)
    ensures ValidateOne(c, m.(pending := pending), provider, o, k) == ValidateOne(c, m, provider, o, k)
  {
  }

  /** Validation reads the pending deals from what it has checked so far, not from the storage it started from. */
  lemma {:induction false} ValidateNext(c: Config, m: Market, pending: set<Deal>, provider: Account,
                                        offers: seq<ClientDeal>, i: nat, k: Checked)
    requires i < |offers| && ValidateAll(c, m, provider, offers[..i]) == Ok(k)
    ensures ValidateAll(c, m, provider, offers[..i + 1])
            == ValidateOne(c, m.(pending := pending), provider, offers[i], k)
  {
    assert offers[..i + 1][..i] == offers[..i];
    ValidateSame(c, m, pending, provider, offers[i], k);
  }

  lemma {:induction false} PublishFails(c: Config, m: Market, offers: seq<ClientDeal>, i: nat)
    requires i <= |offers| && PublishAll(c, m, offers[..i]).Err?
    ensures PublishAll(c, m, offers) == PublishAll(c, m, offers[..i])
    decreases |offers| - i
  {
    if i < |offers| {
      assert offers[..i + 1][..i] == offers[..i];
      PublishFails(c, m, offers, i + 1);
    } else {
      assert offers[..i] == offers;
    }
  }

  lemma {:induction false} TerminateFails(m: Market, provider: Account, ids: seq<DealId>, i: nat)
    requires i <= |ids| && TerminateEach(m, provider, ids[..i]).Err?
    ensures TerminateEach(m, provider, ids) == TerminateEach(m, provider, ids[..i])
    decreases |ids| - i
  {
    if i < |ids| {
      assert ids[..i + 1][..i] == ids[..i];
      TerminateFails(m, provider, ids, i + 1);
    } else {
      assert ids[..i] == ids;
    }
  }

  lemma {:induction false} SectorsFail(m: Market, provider: Account, sectors: seq<nat>, i: nat)
    requires i <= |sectors| && OnSectorsTerminate(m, provider, sectors[..i]).Err?
    ensures OnSectorsTerminate(m, provider, sectors) == OnSectorsTerminate(m, provider, sectors[..i])
    decreases |sectors| - i
  {
    if i < |sectors| {
      assert sectors[..i + 1][..i] == sectors[..i];
      SectorsFail(m, provider, sectors, i + 1);
    } else {
      assert sectors[..i] == sectors;
    }
  }

  class Pallet {
    var now: nat
    var balances: Balances
    var proposals: map<DealId, Deal>
    var nextDealId: DealId
    var pending: set<Deal>
    var dealsForBlock: map<nat, set<DealId>>
    var sectorDeals: map<(Account, nat), seq<DealId>>
    var pot: int
    var wallets: map<Account, nat>
    var issuance: int
    ghost var history: History

    ghost function State(): Market
      reads this
    {
      Market(now, balances, proposals, nextDealId, pending, dealsForBlock, sectorDeals, pot, wallets, issuance, history)
    }

    constructor (block: nat, funds: map<Account, nat>, supply: nat)
      ensures State() == Market(block, map[], map[], 0, {}, map[], map[], 0, funds, supply, map[])
    {
      now, balances, proposals, nextDealId, pending := block, map[], map[], 0, {};
      dealsForBlock, sectorDeals, pot, wallets, issuance, history := map[], map[], 0, funds, supply, map[];
    }

    // ---------- balances ----------

    method Lock(a: Account, amount: nat) returns (r: Result<(), Error>)
      modifies this`balances
      ensures var s := LockFunds(old(balances), a, amount);
              r == (if s.Ok? then Ok(()) else Err(s.error)) && balances == (if s.Ok? then s.value else old(balances))
    {
      var e := Spec.Get(balances, a);
      if amount > e.free { return Err(Underflow); }
      if e.locked + amount > MAX_BALANCE { return Err(Overflow); }
      balances := balances[a := Entry(e.free - amount, e.locked + amount)];
      return Ok(());
    }

    method Unlock(a: Account, amount: nat) returns (r: Result<(), Error>)
      modifies this`balances
      ensures var s := UnlockFunds(old(balances), a, amount);
              r == (if s.Ok? then Ok(()) else Err(s.error)) && balances == (if s.Ok? then s.value else old(balances))
    {
      var e := Spec.Get(balances, a);
      if amount > e.locked { return Err(Underflow); }
      if e.free + amount > MAX_BALANCE { return Err(Overflow); }
      balances := balances[a := Entry(e.free + amount, e.locked - amount)];
      return Ok(());
    }

    /** From the client's locked funds to the provider's free funds. */
    method Pay(client: Account, provider: Account, amount: nat) returns (r: Result<(), Error>)
      modifies this`balances
      ensures var s := PerformStoragePayment(old(balances), client, provider, amount);
              r == (if s.Ok? then Ok(()) else Err(s.error)) && (s.Ok? ==> balances == s.value)
    {
      var e := Spec.Get(balances, client);
      if amount > e.locked { return Err(Underflow); }
      balances := balances[client := Entry(e.free, e.locked - amount)];
      e := Spec.Get(balances, provider);
      if e.free + amount > MAX_BALANCE { return Err(Overflow); }
      balances := balances[provider := Entry(e.free + amount, e.locked)];
      return Ok(());
    }

    /** Takes locked funds away and burns them. */
    method Slash(a: Account, amount: nat) returns (r: Result<(), Error>)
      modifies this`balances, this`pot, this`issuance
      ensures var s := SlashAndBurn(old(State()), a, amount);
              r == (if s.Ok? then Ok(()) else Err(s.error)) && (s.Ok? ==> State() == s.value)
      ensures r.Err? ==> State() == old(State())
    {
      var e := Spec.Get(balances, a);
      if amount > e.locked { return Err(Underflow); }
      if amount > pot { return Err(Corruption); }
      balances := balances[a := Entry(e.free, e.locked - amount)];
      pot, issuance := pot - amount, issuance - amount;
      return Ok(());
    }

    method Deposit(who: Account, amount: nat) returns (r: Result<(), Error>)
      modifies this
      ensures var s := AddBalance(old(State()), who, amount);
              r == (if s.Ok? then Ok(()) else Err(s.error)) && State() == (if s.Ok? then s.value else old(State()))
    {
      var e, wallet := Spec.Get(balances, who), if who in wallets then wallets[who] else 0;
      if e.free + amount > MAX_BALANCE { return Err(Overflow); }
      if amount > wallet { return Err(InsufficientWallet); }
      balances := balances[who := Entry(e.free + amount, e.locked)];
      pot, wallets := pot + amount, wallets[who := wallet - amount];
      return Ok(());
    }

    method Withdraw(who: Account, amount: nat) returns (r: Result<(), Error>)
      modifies this
      ensures var s := WithdrawBalance(old(State()), who, amount);
              r == (if s.Ok? then Ok(()) else Err(s.error)) && State() == (if s.Ok? then s.value else old(State()))
    {
      var e, wallet := Spec.Get(balances, who), if who in wallets then wallets[who] else 0;
      if amount > e.free { return Err(InsufficientFreeFunds); }
      balances := balances[who := Entry(e.free - amount, e.locked)];
      pot, wallets := pot - amount, wallets[who := wallet + amount];
      return Ok(());
    }

    // ---------- settling ----------

    method SettleDeal(id: DealId) returns (r: Result<Settlement, Error>)
      modifies this
      ensures var s := SettleOne(old(State()), id);
              r == (if s.Ok? then Ok(s.value.1) else Err(s.error)) && (s.Ok? ==> State() == s.value.0)
    {
      if id !in proposals { return Ok(NotFound(id)); }
      var d := proposals[id];
      if d.start > now { return Ok(EarlySettlement(id)); }
      if !d.state.Active? { return Ok(NotActive(id)); }
      if d.state.lastUpdated.Some? && d.state.lastUpdated.value > now { return Ok(FutureLastUpdate(id)); }
      var last := if d.state.lastUpdated.Some? then d.state.lastUpdated.value else d.start;
      if last > d.end { return Err(Corruption); }
      r := PayUntil(id, d, if now >= d.end then d.end else now, last);
    }

    /** Pays an active deal from its last settled block up to a block; at its end the deal is completed. */
    method PayUntil(id: DealId, d: Deal, until: nat, last: nat) returns (r: Result<Settlement, Error>)
      requires id in proposals && d == proposals[id] && d.state.Active?
      requires d.start <= now && last == d.PaidUntil() <= d.end && until == if now >= d.end then d.end else now
      requires d.state.lastUpdated.Some? ==> d.state.lastUpdated.value <= now
      modifies this
      ensures var s := SettleOne(old(State()), id);
              r == (if s.Ok? then Ok(s.value.1) else Err(s.error)) && (s.Ok? ==> State() == s.value.0)
    {
      assert last <= until;
      var amount := d.price * (until - last);
      var paid := Pay(d.client, d.provider, amount);
      if paid.Err? { return Err(paid.error); }
      if now >= d.end {
        var unlocked := Unlock(d.provider, d.collateral);
        if unlocked.Err? { return Err(unlocked.error); }
        proposals := proposals - {id};
        history := Leaving(Paying(history, id, amount), id, 0, 0, Completed(now));
      } else {
        proposals := proposals[id := d.(state := d.state.(lastUpdated := Some(now)))];
        history := Paying(history, id, amount);
      }
      return Ok(Settled(id, amount));
    }

    method SettlePayments(ids: seq<DealId>) returns (r: Result<seq<Settlement>, Error>)
      modifies this
      ensures var s := SettleDealPayments(old(State()), ids);
              r == (if s.Ok? then Ok(s.value.1) else Err(s.error)) && (s.Ok? ==> State() == s.value.0)
    {
      var log := [];
      for i := 0 to |ids|
        invariant SettleDealPayments(old(State()), ids[..i]) == Ok((State(), log))
      {
        assert ids[..i + 1][..i] == ids[..i];
        var one := SettleDeal(ids[i]);
        if one.Err? {
          SettleFails(old(State()), ids, i + 1);
          return Err(one.error);
        }
        log := log + [one.value];
      }
      assert ids[..|ids|] == ids;
      return Ok(log);
    }

    // ---------- publishing ----------

    /** Checks one deal against what the batch locks already, notes it as pending and says what its client locks. */
    method ValidateDeal(c: Config, provider: Account, offer: ClientDeal, clientLockup: map<Account, int>,
                        providerLockup: nat)
        returns (r: Result<int, Error>)
      modifies this`pending
      ensures var s := ValidateOne(c, old(State()), provider, offer,
                                   Checked(old(pending), clientLockup, providerLockup));
              && r.Ok? == s.Ok?
              && (s.Ok? ==>
                    s.value == Checked(pending, clientLockup[offer.deal.client := r.value],
                                       providerLockup + offer.deal.collateral))
              && (s.Err? ==> r.error == s.error)
    {
      var sane := SanityCheck(c, offer, provider, now);
      if sane.Err? { return Err(sane.error); }
      var d := offer.deal;
      var lockup := (if d.client in clientLockup then clientLockup[d.client] else 0) + d.Fee();
      if lockup > MAX_BALANCE { return Err(Overflow); }
      if lockup > Spec.Get(balances, d.client).free { return Err(InsufficientFreeFunds); }
      if providerLockup + d.collateral > MAX_BALANCE { return Err(Overflow); }
      if providerLockup + d.collateral > Spec.Get(balances, d.provider).free { return Err(InsufficientFreeFunds); }
      if d in pending { return Err(DuplicateDeal); }
      if |pending| >= c.maxDeals { return Err(TooManyPendingDeals); }
      pending := pending + {d};
      return Ok(lockup);
    }

    /** Checks the batch deal by deal, noting each as pending and adding up what will be locked. */
    method ValidateBatch(c: Config, provider: Account, offers: seq<ClientDeal>) returns (r: Result<nat, Error>)
      modifies this`pending
      ensures var s := ValidateAll(c, old(State()), provider, offers);
              && r.Ok? == s.Ok?
              && (s.Ok? ==> pending == s.value.pending && r.value == s.value.providerLockup)
              && (s.Err? ==> r.error == s.error)
    {
      var clientLockup: map<Account, int>, providerLockup: nat := map[], 0;
      for i := 0 to |offers|
        invariant ValidateAll(c, old(State()), provider, offers[..i])
                  == Ok(Checked(pending, clientLockup, providerLockup))
        invariant State() == old(State()).(pending := pending)
      {
        ValidateNext(c, old(State()), pending, provider, offers, i, Checked(pending, clientLockup, providerLockup));
        var one := ValidateDeal(c, provider, offers[i], clientLockup, providerLockup);
        if one.Err? {
          ValidateFails(c, old(State()), provider, offers, i + 1);
          return Err(one.error);
        }
        clientLockup := clientLockup[offers[i].deal.client := one.value];
        providerLockup := providerLockup + offers[i].deal.collateral;
      }
      assert offers[..|offers|] == offers;
      return Ok(providerLockup);
    }

    /** Locks the client's fee and books the deal under the next identifier. */
    method PublishDeal(c: Config, d: Deal) returns (r: Result<(), Error>)
      modifies this
      ensures var s := PublishOne(c, old(State()), d);
              r == (if s.Ok? then Ok(()) else Err(s.error)) && (s.Ok? ==> State() == s.value)
    {
      if d.Fee() < 0 { return Err(Underflow); }
      var locked := Lock(d.client, d.Fee());
      if locked.Err? { return locked; }
      var id := nextDealId;
      nextDealId := id + 1;
      var scheduled := if d.start in dealsForBlock then dealsForBlock[d.start] else {};
      if |scheduled| >= c.maxDealsPerBlock { return Err(TooManyDealsPerBlock); }
      dealsForBlock := dealsForBlock[d.start := scheduled + {id}];
      proposals := proposals[id := d];
      history := history[id := Record(d, false, 0, 0, 0, None)];
      return Ok(());
    }

    method PublishBatch(c: Config, offers: seq<ClientDeal>) returns (r: Result<(), Error>)
      modifies this
      ensures var s := PublishAll(c, old(State()), offers);
              r == (if s.Ok? then Ok(()) else Err(s.error)) && (s.Ok? ==> State() == s.value)
    {
      for i := 0 to |offers|
        invariant PublishAll(c, old(State()), offers[..i]) == Ok(State())
      {
        assert offers[..i + 1][..i] == offers[..i];
        var one := PublishDeal(c, offers[i].deal);
        if one.Err? {
          PublishFails(c, old(State()), offers, i + 1);
          return one;
        }
      }
      assert offers[..|offers|] == offers;
      return Ok(());
    }

    method PublishDeals(c: Config, provider: Account, registered: bool, offers: seq<ClientDeal>)
        returns (r: Result<(), Error>)
      modifies this
      ensures var s := PublishStorageDeals(c, old(State()), provider, registered, offers);
              r == (if s.Ok? then Ok(()) else Err(s.error)) && (s.Ok? ==> State() == s.value)
    {
      if !registered { return Err(StorageProviderNotRegistered); }
      if offers == [] { return Err(NoProposalsToBePublished); }
      if provider != offers[0].deal.provider { return Err(PublishedByIncorrectStorageProvider); }
      var lockup := ValidateBatch(c, provider, offers);
      if lockup.Err? { return Err(lockup.error); }
      var booked := PublishBatch(c, offers);
      if booked.Err? { return booked; }
      r := Lock(provider, lockup.value);
    }

    // ---------- activating ----------

    method ActivateDeal(sector: nat, id: DealId)
      requires id in proposals
      modifies this
      ensures State() == ActivateOne(old(State()), sector, id)
    {
      var d := proposals[id];
      pending := pending - {d};
      proposals := proposals[id := d.(state := Active(sector, now, None))];
      history := if id in history then history[id := history[id].(activated := true)] else history;
    }

    method ProposalsForDeals(ids: seq<DealId>) returns (found: bool)
      ensures found <==> ProposalsFound(State(), ids)
    {
      var unique := {};
      for i := 0 to |ids|
        invariant unique == set id | id in ids[..i]
        invariant ProposalsFound(State(), ids[..i])
      {
        if ids[i] in unique || ids[i] !in proposals { return false; }
        assert ids[..i + 1] == ids[..i] + [ids[i]];
        unique := unique + {ids[i]};
      }
      assert ids[..|ids|] == ids;
      return true;
    }

    /** Whether all deals of the sector can be activated and fit into it together. */
    method ValidateSector(pendingFound: set<Deal>, provider: Account, s: SectorDeal) returns (valid: bool)
      ensures valid <==> SectorValid(State(), pendingFound, provider, s)
    {
      var found := ProposalsForDeals(s.deals);
      if !found { return false; }
      var space := 0;
      for i := 0 to |s.deals|
        invariant forall j :: 0 <= j < i ==> CanActivate(State(), pendingFound, provider, s.expiry, s.deals[j]).Ok?
        invariant space == DealSpace(State(), s.deals[..i])
      {
        assert s.deals[..i + 1][..i] == s.deals[..i];
        ghost var checked := CanActivate(State(), pendingFound, provider, s.expiry, s.deals[i]);
        var d := proposals[s.deals[i]];
        if provider != d.provider || d.state != Published || now > d.start || s.expiry < d.end || d !in pendingFound {
          assert checked.Err?;
          return false;
        }
        space := space + d.pieceSize;
      }
      assert s.deals[..|s.deals|] == s.deals;
      return space <= s.size;
    }

    method ActivateSectorDeals(found: set<Deal>, provider: Account, s: SectorDeal)
      modifies this
      ensures State() == ActivateSector(old(State()), found, provider, s)
    {
      var valid := ValidateSector(found, provider, s);
      if !valid { return; }
      for i := 0 to |s.deals|
        invariant proposals.Keys == old(proposals).Keys
        invariant State() == ActivateEach(old(State()), s.sector, s.deals[..i])
      {
        assert s.deals[..i + 1][..i] == s.deals[..i];
        ActivateDeal(s.sector, s.deals[i]);
      }
      assert s.deals[..|s.deals|] == s.deals;
      sectorDeals := sectorDeals[(provider, s.sector) := s.deals];
    }

    method ActivateSectors(provider: Account, sectors: seq<SectorDeal>)
      modifies this
      ensures State() == ActivateDeals(old(State()), provider, sectors)
    {
      var found := pending;
      for i := 0 to |sectors|
        invariant State() == ActivateAll(old(State()), found, provider, sectors[..i])
      {
        assert sectors[..i + 1][..i] == sectors[..i];
        ActivateSectorDeals(found, provider, sectors[i]);
      }
      assert sectors[..|sectors|] == sectors;
    }

    // ---------- terminating ----------

    method TerminateDeal(provider: Account, id: DealId) returns (r: Result<(), Error>)
      modifies this
      ensures var s := TerminateOne(old(State()), provider, id);
              r == (if s.Ok? then Ok(()) else Err(s.error)) && (s.Ok? ==> State() == s.value)
    {
      if id !in proposals { return Err(DealNotFound); }
      var d := proposals[id];
      if provider != d.provider { return Err(InvalidCaller); }
      if d.end <= now { return Ok(()); }
      if !d.state.Active? { return Err(DealIsNotActive); }
      if d.state.lastUpdated.None? { pending := pending - {d}; }
      var from := CalculateStartBlock(d.start, d.state.lastUpdated);
      var until := if now < d.end then now else d.end;
      if until < from { return Err(Underflow); }
      r := CloseDeal(id, d, d.price * (until - from), d.price * (d.end - until));
    }

    /** Pays the provider, burns its collateral, returns the rest to the client and removes the deal. */
    method CloseDeal(id: DealId, d: Deal, payment: nat, rest: nat) returns (r: Result<(), Error>)
      modifies this
      ensures var s := CloseTerminated(old(State()), id, d, payment, rest);
              r == (if s.Ok? then Ok(()) else Err(s.error)) && (s.Ok? ==> State() == s.value)
    {
      var paid := Pay(d.client, d.provider, payment);
      if paid.Err? { return paid; }
      var slashed := Slash(d.provider, d.collateral);
      if slashed.Err? { return slashed; }
      var unlocked := Unlock(d.client, rest);
      if unlocked.Err? { return unlocked; }
      proposals := proposals - {id};
      history := Leaving(Paying(history, id, payment), id, rest, d.collateral, Terminated(now));
      return Ok(());
    }

    method TerminateDeals(provider: Account, ids: seq<DealId>) returns (r: Result<(), Error>)
      modifies this
      ensures var s := TerminateEach(old(State()), provider, ids);
              r == (if s.Ok? then Ok(()) else Err(s.error)) && (s.Ok? ==> State() == s.value)
    {
      for i := 0 to |ids|
        invariant TerminateEach(old(State()), provider, ids[..i]) == Ok(State())
      {
        assert ids[..i + 1][..i] == ids[..i];
        var one := TerminateDeal(provider, ids[i]);
        if one.Err? {
          TerminateFails(old(State()), provider, ids, i + 1);
          return one;
        }
      }
      assert ids[..|ids|] == ids;
      return Ok(());
    }

    method TerminateSectors(provider: Account, sectors: seq<nat>) returns (r: Result<(), Error>)
      modifies this
      ensures var s := OnSectorsTerminate(old(State()), provider, sectors);
              r == (if s.Ok? then Ok(()) else Err(s.error)) && (s.Ok? ==> State() == s.value)
    {
      for i := 0 to |sectors|
        invariant OnSectorsTerminate(old(State()), provider, sectors[..i]) == Ok(State())
      {
        assert sectors[..i + 1][..i] == sectors[..i];
        if (provider, sectors[i]) !in sectorDeals { continue; }
        var ids := sectorDeals[(provider, sectors[i])];
        sectorDeals := sectorDeals - {(provider, sectors[i])};
        var one := TerminateDeals(provider, ids);
        if one.Err? {
          SectorsFail(old(State()), provider, sectors, i + 1);
          return one;
        }
      }
      assert sectors[..|sectors|] == sectors;
      return Ok(());
    }

    // ---------- the end of a block ----------

    method FinalizeDeal(id: DealId)
      modifies this
      ensures State() == FinalizeOne(old(State()), id)
    {
      if id !in proposals { return; }
      var d := proposals[id];
      if d.state.Active? || d.Fee() < 0 { return; }
      var unlocked := Unlock(d.client, d.Fee());
      if unlocked.Err? { return; }
      var slashed := Slash(d.provider, d.collateral);
      if slashed.Err? { return; }
      proposals, pending := proposals - {id}, pending - {d};
      history := Leaving(history, id, d.Fee(), d.collateral, Expired(now));
    }

    method FinalizeBlock()
      modifies this
      ensures State() == OnFinalize(old(State()))
    {
      var ids := if now in dealsForBlock then dealsForBlock[now] else {};
      if ids == {} { return; }
      var todo := ids;
      while todo != {}
        invariant FinalizeEach(State(), todo) == FinalizeEach(old(State()), ids)
        invariant now == old(now)
        decreases todo
      {
        var id := Least(todo);
        FinalizeDeal(id);
        todo := todo - {id};
      }
      dealsForBlock := dealsForBlock - {now};
    }
  }
}
