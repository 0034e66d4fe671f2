/** Where the market does less than one would expect, shown on runs from an empty market: deals of a provider
    with itself, terminations before a deal's start, and deals that were settled away. */
module MarketLimits {
  import opened Results
  import opened Market
  import opened MarketLedger
  import opened MarketSpec
  import opened MarketInvariant
  import opened MarketLifecycle
  import opened MarketActivation
  import opened MarketPublish
  import opened MarketRun

  lemma {:induction false} RunAppend(c: Config, m: Market, a: seq<Op>, b: seq<Op>)
    ensures Run(c, m, a + b) == Run(c, Run(c, m, a), b)
  {
    if b == [] {
      assert a + b == a;
    } else {
      assert (a + b)[..|a + b| - 1] == a + b[..|b| - 1];
      RunAppend(c, m, a, b[..|b| - 1]);
    }
  }

  lemma {:induction false} RunOne(c: Config, m: Market, op: Op)
    ensures Run(c, m, [op]) == Step(c, m, op)
  {
    assert [op][..0] == [];
  }

  lemma {:induction false} RunSnoc(c: Config, m: Market, ops: seq<Op>, op: Op, m': Market)
    requires Run(c, m, ops) == m'
    ensures Run(c, m, ops + [op]) == Step(c, m', op)
  {
    RunAppend(c, m, ops, [op]);
    RunOne(c, m', op);
  }

  /** A market in which nothing has been published. */
  ghost predicate Unused(m: Market) {
    m.proposals == map[] && m.nextDealId == 0 && m.pending == {} && m.dealsForBlock == map[] && m.sectorDeals == map[]
  }

  lemma {:induction false} Deposited(c: Config, m: Market, start: map<Account, nat>, a: Account, amount: nat)
      returns (m': Market)
    requires Inv(m, start) && Unused(m) && Wallet(m, a) >= amount
    ensures m' == Step(c, m, Deposit(a, amount)) && Inv(m', start) && Unused(m') && m'.now == m.now
    ensures Get(m'.balances, a).free == Get(m.balances, a).free + amount && Wallet(m', a) == Wallet(m, a) - amount
    ensures forall x :: x != a ==> Get(m'.balances, x) == Get(m.balances, x) && Wallet(m', x) == Wallet(m, x)
  {
    AddBalanceKeeps(m, start, a, amount);
    m' := AddBalance(m, a, amount).value;
  }

  // ---------- a deal of a provider with itself ----------

  /** A deal of an account with itself whose fee and collateral are each at most k, but not together. */
  ghost predicate ToItself(c: Config, now: nat, o: ClientDeal, k: nat) {
    && o.deal.client == o.deal.provider && Fit(c, o, o.deal.provider, now)
    && c.maxDeals > 0 && c.maxDealsPerBlock > 0 && k <= MAX_BALANCE
    && o.deal.Fee() <= k && o.deal.collateral <= k && o.deal.Fee() + o.deal.collateral > k
  }

  lemma {:induction false} BatchOfOne(o: ClientDeal, a: Account)
    ensures FeesOf([o], a) == if o.deal.client == a then o.deal.Fee() else 0
    ensures CollateralOf([o]) == o.deal.collateral && DealsOf([o]) == {o.deal}
  {
    assert [o][..0] == [];
  }

  lemma {:induction false} OneAcceptable(c: Config, m: Market, o: ClientDeal)
    requires Unused(m) && Fit(c, o, o.deal.provider, m.now) && c.maxDeals > 0 && c.maxDealsPerBlock > 0
    requires o.deal.Fee() <= Get(m.balances, o.deal.client).free
             && o.deal.collateral <= Get(m.balances, o.deal.provider).free
    ensures Acceptable(c, m, o.deal.provider, [o]) && BlocksFit(c, m, [o])
  {
    forall a ensures FeesOf([o], a) == if o.deal.client == a then o.deal.Fee() else 0 { BatchOfOne(o, a); }
    BatchOfOne(o, 0);
    assert m.pending + DealsOf([o]) == {o.deal};
    assert [o][..0] == [];
  }

  lemma {:induction false} SumOfOne(a: Account, k: nat)
    ensures Sum(map[a := k]) == k
  {
    var none: map<nat, nat> := map[];
    SumUpdate(none, a, k);
    assert none[a := k] == map[a := k];
  }

  /** An account that deposits k and then publishes such a deal passes validation and fails to lock its funds. */
  lemma {:induction false} SelfDealFails(c: Config, now: nat, o: ClientDeal, k: nat)
    requires ToItself(c, now, o, k)
    ensures var a := o.deal.provider;
            var m := Run(c, Genesis(now, map[a := k]), [Deposit(a, k)]);
            ValidateDeals(c, m, a, [o]).Ok? && PublishStorageDeals(c, m, a, true, [o]) == Err(Underflow)
  {
    var a, wallets := o.deal.provider, map[o.deal.provider := k];
    SumOfOne(a, k);
    GenesisInv(now, wallets);
    var m := Deposited(c, Genesis(now, wallets), wallets, a, k);
    RunOne(c, Genesis(now, wallets), Deposit(a, k));
    OneAcceptable(c, m, o);
    BatchOfOne(o, a);
    SelfDealsFail(c, m, wallets, a, true, [o]);
  }

  /** For instance a deal over 3 blocks at 2 each with a collateral of 6, for an account with 10. */
  lemma {:induction false} SelfDealExample() returns (c: Config, o: ClientDeal)
    ensures c == Config(1, 100, 10, 10) && o == ClientDeal(Deal(0, 1, 1, 1, 10, 13, 2, 6, Published), true, true)
    ensures ToItself(c, 0, o, 10)
    ensures var m := Run(c, Genesis(0, map[o.deal.provider := 10]), [Deposit(o.deal.provider, 10)]);
            ValidateDeals(c, m, o.deal.provider, [o]).Ok?
                && PublishStorageDeals(c, m, o.deal.provider, true, [o]) == Err(Underflow)
  {
    c, o := Config(1, 100, 10, 10), ClientDeal(Deal(0, 1, 1, 1, 10, 13, 2, 6, Published), true, true);
    assert o.deal.Fee() == 6;
    SelfDealFails(c, 0, o, 10);
  }

  // ---------- one deal from its publication on ----------

  /** A deal between two accounts that can be published at a block, with funds for it, and a sector that can hold it. */
  ghost predicate Dealable(c: Config, now: nat, o: ClientDeal, fee: nat, s: SectorDeal) {
    && o.deal.client != o.deal.provider && Fit(c, o, o.deal.provider, now)
    && c.maxDeals > 0 && c.maxDealsPerBlock > 0 && o.deal.Fee() == fee && fee + o.deal.collateral <= MAX_BALANCE
    && s.deals == [0] && o.deal.end <= s.expiry && o.deal.pieceSize <= s.size
  }

  /** For instance the same terms between two accounts, in a sector that lives 7 blocks longer. */
  lemma {:induction false} DealableExample() returns (c: Config, o: ClientDeal, s: SectorDeal)
    ensures c == Config(1, 100, 10, 10) && o == ClientDeal(Deal(0, 1, 2, 1, 10, 13, 2, 6, Published), true, true)
    ensures s == SectorDeal(3, 20, 1, [0]) && Dealable(c, 0, o, 6, s)
  {
    c, o := Config(1, 100, 10, 10), ClientDeal(Deal(0, 1, 2, 1, 10, 13, 2, 6, Published), true, true);
    s := SectorDeal(3, 20, 1, [0]);
    assert o.deal.Fee() == 6;
  }

  ghost function Purses(o: ClientDeal, fee: nat): map<Account, nat> {
    map[o.deal.provider := o.deal.collateral][o.deal.client := fee]
  }

  /** Both sides deposit, the deal is published, and its sector activated. */
  ghost function Opening(o: ClientDeal, fee: nat, s: SectorDeal): seq<Op> {
    [Deposit(o.deal.provider, o.deal.collateral)] + [Deposit(o.deal.client, fee)] +
    [Publish(o.deal.provider, true, [o])] + [Activate(o.deal.provider, [s])]
  }

  ghost function Blocks(k: nat): seq<Op> {
    if k == 0 then [] else Blocks(k - 1) + [EndBlock]
  }

  /** The only deal is active in the sector and has not been settled. */
  ghost predicate Running(m: Market, o: ClientDeal, s: SectorDeal, activated: nat) {
    && m.proposals == map[0 := o.deal.(state := Active(s.sector, activated, None))]
    && (o.deal.provider, s.sector) in m.sectorDeals && m.sectorDeals[(o.deal.provider, s.sector)] == [0]
  }

  lemma {:induction false} PursesSum(o: ClientDeal, fee: nat)
    requires o.deal.client != o.deal.provider
    ensures Sum(Purses(o, fee)) == fee + o.deal.collateral
  {
    SumOfOne(o.deal.provider, o.deal.collateral);
    SumUpdate(map[o.deal.provider := o.deal.collateral], o.deal.client, fee);
  }

  lemma {:induction false} PublishAllOne(c: Config, m: Market, o: ClientDeal)
    ensures PublishAll(c, m, [o]) == PublishOne(c, m, o.deal)
  {
    assert [o][..0] == [];
    assert PublishAll(c, m, [o][..0]) == Ok(m);
  }

  lemma {:induction false} PublishedAs(c: Config, m: Market, provider: Account, o: ClientDeal, m': Market)
    requires PublishStorageDeals(c, m, provider, true, [o]) == Ok(m')
    ensures m'.proposals == m.proposals[m.nextDealId := o.deal] && m'.now == m.now
  {
    PublishAllOne(c, m.(pending := ValidateDeals(c, m, provider, [o]).value.pending), o);
  }

  lemma {:induction false} PublishedOne(c: Config, m: Market, start: map<Account, nat>, o: ClientDeal)
      returns (m': Market)
    requires Inv(m, start) && Unused(m) && Fit(c, o, o.deal.provider, m.now)
    requires c.maxDeals > 0 && c.maxDealsPerBlock > 0 && o.deal.client != o.deal.provider
    requires o.deal.Fee() <= Get(m.balances, o.deal.client).free
             && o.deal.collateral <= Get(m.balances, o.deal.provider).free
    ensures m' == Step(c, m, Publish(o.deal.provider, true, [o])) && Inv(m', start)
    ensures m'.proposals == map[0 := o.deal] && m'.now == m.now
  {
    OneAcceptable(c, m, o);
    BatchOfOne(o, o.deal.provider);
    PublishKeeps(c, m, start, o.deal.provider, true, [o]);
    m' := PublishStorageDeals(c, m, o.deal.provider, true, [o]).value;
    PublishedAs(c, m, o.deal.provider, o, m');
  }

  lemma {:induction false} ActivateOneSector(m: Market, provider: Account, s: SectorDeal)
    ensures ActivateDeals(m, provider, [s]) == ActivateSector(m, m.pending, provider, s)
  {
    assert [s][..0] == [];
    assert ActivateAll(m, m.pending, provider, [s][..0]) == m;
  }

  lemma {:induction false} SectorFits(m: Market, start: map<Account, nat>, o: ClientDeal, s: SectorDeal)
    requires Inv(m, start) && m.proposals == map[0 := o.deal] && o.deal.state == Published && m.now <= o.deal.start
    requires s.deals == [0] && o.deal.end <= s.expiry && o.deal.pieceSize <= s.size
    ensures SectorValid(m, m.pending, o.deal.provider, s)
  {
    assert PublishedAt(m.proposals, 0) && PublishedDeal(m.proposals, o.deal);
    assert s.deals[..0] == [];
    assert DealSpace(m, s.deals[..0]) == 0;
  }

  lemma {:induction false} NowRunning(m: Market, m': Market, o: ClientDeal, s: SectorDeal)
    requires m.proposals == map[0 := o.deal] && s.deals == [0] && ActivatedAll(m, m', s.sector, s.deals)
    requires m'.sectorDeals == m.sectorDeals[(o.deal.provider, s.sector) := s.deals]
    ensures Running(m', o, s, m.now) && m'.now == m.now
  {
    assert 0 in s.deals;
  }

  lemma {:induction false} ActivatedOne(c: Config, m: Market, start: map<Account, nat>, o: ClientDeal, s: SectorDeal)
      returns (m': Market)
    requires Inv(m, start) && m.proposals == map[0 := o.deal] && o.deal.state == Published && m.now <= o.deal.start
    requires s.deals == [0] && o.deal.end <= s.expiry && o.deal.pieceSize <= s.size
    ensures m' == Step(c, m, Activate(o.deal.provider, [s])) && Inv(m', start)
    ensures Running(m', o, s, m.now) && m'.now == m.now
  {
    SectorFits(m, start, o, s);
    ActivateOneSector(m, o.deal.provider, s);
    ActivateSectorKeeps(m, start, m.pending, o.deal.provider, s);
    m' := ActivateSector(m, m.pending, o.deal.provider, s);
    NowRunning(m, m', o, s);
  }

  lemma {:induction false} Funded(c: Config, now: nat, o: ClientDeal, fee: nat) returns (m: Market)
    requires o.deal.client != o.deal.provider && fee + o.deal.collateral <= MAX_BALANCE
    ensures m == Run(c, Genesis(now, Purses(o, fee)),
                     [Deposit(o.deal.provider, o.deal.collateral)] + [Deposit(o.deal.client, fee)])
    ensures Inv(m, Purses(o, fee)) && Unused(m) && m.now == now
    ensures Get(m.balances, o.deal.client).free == fee && Get(m.balances, o.deal.provider).free == o.deal.collateral
  {
    var start := Purses(o, fee);
    var m0 := Genesis(now, start);
    PursesSum(o, fee);
    GenesisInv(now, start);
    var m1 := Deposited(c, m0, start, o.deal.provider, o.deal.collateral);
    m := Deposited(c, m1, start, o.deal.client, fee);
    RunOne(c, m0, Deposit(o.deal.provider, o.deal.collateral));
    RunSnoc(c, m0, [Deposit(o.deal.provider, o.deal.collateral)], Deposit(o.deal.client, fee), m1);
  }

  lemma {:induction false} Opened(c: Config, now: nat, o: ClientDeal, fee: nat, s: SectorDeal) returns (m: Market)
    requires Dealable(c, now, o, fee, s)
    ensures m == Run(c, Genesis(now, Purses(o, fee)), Opening(o, fee, s))
    ensures Inv(m, Purses(o, fee)) && Running(m, o, s, now) && m.now == now
  {
    var start, deposits := Purses(o, fee),
        [Deposit(o.deal.provider, o.deal.collateral)] + [Deposit(o.deal.client, fee)];
    var m2 := Funded(c, now, o, fee);
    var m3 := PublishedOne(c, m2, start, o);
    m := ActivatedOne(c, m3, start, o, s);
    RunSnoc(c, Genesis(now, start), deposits, Publish(o.deal.provider, true, [o]), m2);
    RunSnoc(c, Genesis(now, start), deposits + [Publish(o.deal.provider, true, [o])], Activate(o.deal.provider, [s]),
            m3);
  }

  lemma {:induction false} BlockPasses(c: Config, m: Market, start: map<Account, nat>, o: ClientDeal, s: SectorDeal,
                                       at: nat) returns (m': Market)
    requires Inv(m, start) && Running(m, o, s, at)
    ensures m' == Step(c, m, EndBlock) && Inv(m', start) && Running(m', o, s, at) && m'.now == m.now + 1
  {
    OnFinalizeKeeps(m, start);
    FinalizeLists(m, start);
    StepKeeps(c, m, start, EndBlock);
    m' := Step(c, m, EndBlock);
    assert !PublishedAt(m.proposals, 0);
    assert m'.proposals == m.proposals;
  }

  lemma {:induction false} BlocksPass(c: Config, m: Market, start: map<Account, nat>, o: ClientDeal, s: SectorDeal,
                                      at: nat, k: nat) returns (m': Market)
    requires Inv(m, start) && Running(m, o, s, at)
    ensures m' == Run(c, m, Blocks(k)) && Inv(m', start) && Running(m', o, s, at) && m'.now == m.now + k
  {
    if k == 0 {
      m' := m;
    } else {
      var m1 := BlocksPass(c, m, start, o, s, at, k - 1);
      RunSnoc(c, m, Blocks(k - 1), EndBlock, m1);
      m' := BlockPasses(c, m1, start, o, s, at);
    }
  }

  /** Terminating a sector that lists one deal: what happens when the deal is gone, and when it has not started. */
  lemma {:induction false} TerminateLone(m: Market, provider: Account, sector: nat, id: DealId)
    requires (provider, sector) in m.sectorDeals && m.sectorDeals[(provider, sector)] == [id]
    ensures id !in m.proposals ==> OnSectorsTerminate(m, provider, [sector]) == Err(DealNotFound)
    ensures id in m.proposals && ActiveIn(m.proposals[id], provider, sector)
            && m.now < m.proposals[id].start < m.proposals[id].end ==>
              OnSectorsTerminate(m, provider, [sector]) == Err(Underflow)
  {
    var m1 := m.(sectorDeals := m.sectorDeals - {(provider, sector)});
    assert [sector][..0] == [] && [id][..0] == [];
    assert TerminateEach(m1, provider, [id][..0]) == Ok(m1) && OnSectorsTerminate(m, provider, [sector][..0]) == Ok(m);
    assert TerminateEach(m1, provider, [id]) == TerminateOne(m1, provider, id);
  }

  /** A sector with any deal that has not started cannot be terminated. */
  lemma {:induction false} EarlyTerminationFails(m: Market, start: map<Account, nat>, provider: Account, sector: nat,
                                                 id: DealId)
    requires Inv(m, start) && Lists(m.sectorDeals, provider, sector, id)
    requires id in m.proposals && m.now < m.proposals[id].start
    ensures OnSectorsTerminate(m, provider, [sector]).Err?
  {
    OnSectorsTerminateKeeps(m, start, provider, [sector]);
    assert !Startable(m, id);
    assert [sector][0] == sector;
  }

  /** A deal that was published and activated k blocks ago cannot be terminated before its start block, and can from
      then on. */
  lemma {:induction false} TerminationTimes(c: Config, now: nat, o: ClientDeal, fee: nat, s: SectorDeal, k: nat)
    requires Dealable(c, now, o, fee, s)
    ensures var m := Run(c, Genesis(now, Purses(o, fee)), Opening(o, fee, s) + Blocks(k));
            if now + k < o.deal.start then OnSectorsTerminate(m, o.deal.provider, [s.sector]) == Err(Underflow)
            else OnSectorsTerminate(m, o.deal.provider, [s.sector]).Ok?
  {
    var m0 := Opened(c, now, o, fee, s);
    var m := BlocksPass(c, m0, Purses(o, fee), o, s, now, k);
    RunAppend(c, Genesis(now, Purses(o, fee)), Opening(o, fee, s), Blocks(k));
    TerminateLone(m, o.deal.provider, s.sector, 0);
    OnSectorsTerminateKeeps(m, Purses(o, fee), o.deal.provider, [s.sector]);
  }

  lemma {:induction false} SettledAway(c: Config, m: Market, start: map<Account, nat>, o: ClientDeal, s: SectorDeal,
                                       at: nat) returns (m': Market)
    requires Inv(m, start) && Running(m, o, s, at) && o.deal.start <= o.deal.end <= m.now
    ensures m' == Step(c, m, Settle([0])) && Inv(m', start) && Stale(m', o.deal.provider, s.sector, 0)
    ensures m'.sectorDeals == m.sectorDeals
  {
    SettleKeeps(m, start, [0]);
    SettleLists(m, [0]);
    m' := SettleDealPayments(m, [0]).value.0;
    assert Completes(m, 0) && 0 in [0];
  }

  /** A deal that ran to its end and was settled is still listed for its sector: the sector can no longer be
      terminated, at once or after any further calls that do not activate it anew. */
  lemma {:induction false} SettledAwayFails(c: Config, now: nat, o: ClientDeal, fee: nat, s: SectorDeal, k: nat,
                                            more: seq<Op>)
    requires Dealable(c, now, o, fee, s) && o.deal.end <= now + k
    requires forall j :: 0 <= j < |more| ==> !Relists(more[j], o.deal.provider, s.sector)
    ensures var m := Run(c, Genesis(now, Purses(o, fee)), Opening(o, fee, s) + Blocks(k) + [Settle([0])]);
            && OnSectorsTerminate(m, o.deal.provider, [s.sector]) == Err(DealNotFound)
            && OnSectorsTerminate(Run(c, m, more), o.deal.provider, [s.sector]).Err?
  {
    var start, genesis := Purses(o, fee), Genesis(now, Purses(o, fee));
    var m0 := Opened(c, now, o, fee, s);
    var m1 := BlocksPass(c, m0, start, o, s, now, k);
    RunAppend(c, genesis, Opening(o, fee, s), Blocks(k));
    var m := SettledAway(c, m1, start, o, s, now);
    RunSnoc(c, genesis, Opening(o, fee, s) + Blocks(k), Settle([0]), m1);
    TerminateLone(m, o.deal.provider, s.sector, 0);
    StaleForever(c, m, start, more, o.deal.provider, s.sector, 0, [s.sector]);
  }
}
