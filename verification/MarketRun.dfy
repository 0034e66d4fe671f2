/** Whole runs of the market: deposits, withdrawals, publications, settlements, activations,
    terminations and ends of blocks in any order.  A call that fails changes nothing. */
module MarketRun {
  import opened Arith
  import opened Results
  import opened Market
  import opened MarketLedger
  import opened MarketSpec
  import opened MarketParts
  import opened MarketInvariant
  import opened MarketLifecycle
  import opened MarketActivation
  import opened MarketPublish

  datatype Op =
    | Deposit(who: Account, amount: nat)
    | Withdraw(who: Account, amount: nat)
    | Publish(provider: Account, registered: bool, offers: seq<ClientDeal>)
    | Settle(ids: seq<DealId>)
    | Activate(provider: Account, sectors: seq<SectorDeal>)
    | Terminate(provider: Account, sectorNumbers: seq<nat>)
    | EndBlock

  function Kept<E>(m: Market, r: Result<Market, E>): Market {
    if r.Ok? then r.value else m
  }

  function Step(c: Config, m: Market, op: Op): Market {
    match op
    case Deposit(who, amount) => Kept(m, AddBalance(m, who, amount))
    case Withdraw(who, amount) => Kept(m, WithdrawBalance(m, who, amount))
    case Publish(provider, registered, offers) => Kept(m, PublishStorageDeals(c, m, provider, registered, offers))
    case Settle(ids) => var r := SettleDealPayments(m, ids); if r.Ok? then r.value.0 else m
    case Activate(provider, sectors) => ActivateDeals(m, provider, sectors)
    case Terminate(provider, sectorNumbers) => Kept(m, OnSectorsTerminate(m, provider, sectorNumbers))
    case EndBlock => var m' := OnFinalize(m); m'.(now := m'.now + 1)
  }

  function Run(c: Config, m: Market, ops: seq<Op>): Market {
    if ops == [] then m else Step(c, Run(c, m, ops[..|ops| - 1]), ops[|ops| - 1])
  }

  function Genesis(now: nat, wallets: map<Account, nat>): Market {
    Market(now, map[], map[], 0, {}, map[], map[], 0, wallets, SumOf(wallets), map[])
  }

  function SumOf(wallets: map<Account, nat>): (s: nat)
    ensures s == Sum(wallets)
    decreases wallets.Keys
  {
    if wallets == map[] then 0 else
    var a := Least(wallets.Keys);
    assert (wallets - {a}).Keys == wallets.Keys - {a};
    wallets[a] + SumOf(wallets - {a})
  }

  // ---------- deposits and withdrawals ----------

  lemma {:induction false} MovedBacked(b: Balances, b': Balances, ps: Deals, next: DealId, a: Account, free: int)
    requires Backed(b, ps, next) && Moved(b, b', a, free, 0)
    ensures Backed(b', ps, next)
  {
    forall x ensures Get(b', x).locked == Backing(ps, x, next) { assert Get(b', x).locked == Get(b, x).locked; }
  }

  /** The amount has moved from the account's wallet to its free funds, and nothing else has changed. */
  ghost predicate Transferred(m: Market, m': Market, who: Account, amount: int) {
    && m' == m.(balances := m'.balances, pot := m.pot + amount, wallets := m'.wallets)
    && Moved(m.balances, m'.balances, who, amount, 0)
    && (forall a: Account :: At(m'.wallets, a) == At(m.wallets, a) - if a == who then amount else 0)
  }

  /** A deposit fails only for want of funds; it moves them from the wallet to the market. */
  lemma {:induction false} AddBalanceKeeps(m: Market, start: map<Account, nat>, who: Account, amount: nat)
    requires Inv(m, start)
    ensures AddBalance(m, who, amount).Ok? <==> amount <= Wallet(m, who)
    ensures AddBalance(m, who, amount).Ok? ==>
              && Inv(AddBalance(m, who, amount).value, start)
              && Transferred(m, AddBalance(m, who, amount).value, who, amount)
    ensures AddBalance(m, who, amount).Err? ==> AddBalance(m, who, amount).error in {Overflow, InsufficientWallet}
  {
    if amount <= Wallet(m, who) {
      var m' := DepositedKeeps(m, start, who, amount);
      DepositMoves(m, start, who, amount, m');
    }
  }

  lemma {:induction false} DepositedKeeps(m: Market, start: map<Account, nat>, who: Account, amount: nat)
      returns (m': Market)
    requires Inv(m, start) && amount <= Wallet(m, who)
    ensures AddBalance(m, who, amount) == Ok(m') && Inv(m', start)
  {
    var b, wallets := DepositParts(m.balances, m.proposals, m.nextDealId, m.pot, m.wallets, m.issuance, who, amount);
    FundsKeep(m, start, b, m.pot + amount, wallets);
    m' := DepositIs(m, who, amount, b, wallets);
  }

  lemma {:induction false} DepositMoves(m: Market, start: map<Account, nat>, who: Account, amount: nat, m': Market)
    requires Inv(m, start) && amount <= Wallet(m, who) && AddBalance(m, who, amount) == Ok(m')
    ensures Transferred(m, m', who, amount)
  {
    SumCovers(m.wallets, who);
    CreditEffect(m.balances, who, amount);
  }

  lemma {:induction false} WithdrawMoves(m: Market, who: Account, amount: nat, m': Market)
    requires WithdrawBalance(m, who, amount) == Ok(m')
    ensures Transferred(m, m', who, 0 - amount)
  {
    WithdrawEffect(m.balances, who, amount);
  }

  lemma {:induction false} DepositIs(m: Market, who: Account, amount: nat, b: Balances, wallets: map<Account, nat>)
      returns (m': Market)
    requires amount <= Wallet(m, who) && Credit(m.balances, who, amount) == Ok(b)
    requires wallets == m.wallets[who := Wallet(m, who) - amount]
    ensures m' == m.(balances := b, pot := m.pot + amount, wallets := wallets) && AddBalance(m, who, amount) == Ok(m')
  {
    m' := m.(balances := b, pot := m.pot + amount, wallets := wallets);
  }

  lemma {:induction false} DepositParts(
      b: Balances, ps: Deals, next: DealId, pot: int, wallets: map<Account, nat>, issuance: int, who: Account,
          amount: nat)
      returns (b': Balances, wallets': map<Account, nat>)
    requires Backed(b, ps, next) && Solvent(b, pot, wallets, issuance) && amount <= At(wallets, who)
    ensures Credit(b, who, amount) == Ok(b') && wallets' == wallets[who := At(wallets, who) - amount]
    ensures Backed(b', ps, next) && Solvent(b', pot + amount, wallets', issuance) && SameOwned(b, wallets, b', wallets')
  {
    SumCovers(wallets, who);
    CreditEffect(b, who, amount);
    b', wallets' := Credit(b, who, amount).value, wallets[who := At(wallets, who) - amount];
    SumUpdate(wallets, who, At(wallets, who) - amount);
    MovedBacked(b, b', ps, next, who, amount);
  }

  /** Funds moved between wallets and market, if at all; no account owns more or less. */
  ghost predicate SameOwned(b: Balances, wallets: map<Account, nat>, b': Balances, wallets': map<Account, nat>) {
    forall a: Account :: At(wallets', a) + Owns(b', a) == At(wallets, a) + Owns(b, a)
  }

  lemma {:induction false} FundsKeep(m: Market, start: map<Account, nat>, b: Balances, pot: int,
                                     wallets: map<Account, nat>)
    requires Inv(m, start) && Backed(b, m.proposals, m.nextDealId) && Solvent(b, pot, wallets, m.issuance)
    requires SameOwned(m.balances, m.wallets, b, wallets)
    ensures Inv(m.(balances := b, pot := pot, wallets := wallets), start)
  {
  }

  /** A withdrawal succeeds exactly when the free funds cover it: locked funds are out of reach. */
  lemma {:induction false} WithdrawKeeps(m: Market, start: map<Account, nat>, who: Account, amount: nat)
    requires Inv(m, start)
    ensures WithdrawBalance(m, who, amount).Ok? <==> amount <= Get(m.balances, who).free
    ensures WithdrawBalance(m, who, amount).Ok? ==>
              && Inv(WithdrawBalance(m, who, amount).value, start)
              && Transferred(m, WithdrawBalance(m, who, amount).value, who, 0 - amount)
    ensures WithdrawBalance(m, who, amount).Err? ==> WithdrawBalance(m, who, amount).error == InsufficientFreeFunds
  {
    if amount <= Get(m.balances, who).free {
      var m' := WithdrawnKeeps(m, start, who, amount);
      WithdrawMoves(m, who, amount, m');
    }
  }

  lemma {:induction false} WithdrawnKeeps(m: Market, start: map<Account, nat>, who: Account, amount: nat)
      returns (m': Market)
    requires Inv(m, start) && amount <= Get(m.balances, who).free
    ensures WithdrawBalance(m, who, amount) == Ok(m') && Inv(m', start)
  {
    var b, pot, wallets := WithdrawParts(m.balances, m.proposals, m.nextDealId, m.pot, m.wallets, m.issuance, who,
                                         amount);
    FundsKeep(m, start, b, pot, wallets);
    m' := WithdrawIs(m, who, amount, b, pot, wallets);
  }

  lemma {:induction false} WithdrawIs(m: Market, who: Account, amount: nat, b: Balances, pot: int,
                                      wallets: map<Account, nat>)
      returns (m': Market)
    requires amount <= Get(m.balances, who).free && pot == m.pot - amount
    requires b == m.balances[who := Entry(Get(m.balances, who).free - amount, Get(m.balances, who).locked)]
    requires wallets == m.wallets[who := At(m.wallets, who) + amount]
    ensures m' == m.(balances := b, pot := pot, wallets := wallets) && WithdrawBalance(m, who, amount) == Ok(m')
  {
    m' := m.(balances := b, pot := pot, wallets := wallets);
  }

  lemma {:induction false} WithdrawParts(
      b: Balances, ps: Deals, next: DealId, pot: int, wallets: map<Account, nat>, issuance: int, who: Account,
          amount: nat)
      returns (b': Balances, pot': int, wallets': map<Account, nat>)
    requires Backed(b, ps, next) && Solvent(b, pot, wallets, issuance) && amount <= Get(b, who).free
    ensures b' == b[who := Entry(Get(b, who).free - amount, Get(b, who).locked)]
    ensures pot' == pot - amount && wallets' == wallets[who := At(wallets, who) + amount]
    ensures Backed(b', ps, next) && Solvent(b', pot', wallets', issuance) && SameOwned(b, wallets, b', wallets')
  {
    b', pot' := b[who := Entry(Get(b, who).free - amount, Get(b, who).locked)], pot - amount;
    wallets' := wallets[who := At(wallets, who) + amount];
    WithdrawEffect(b, who, amount);
    SumUpdate(wallets, who, At(wallets, who) + amount);
    MovedBacked(b, b', ps, next, who, 0 - amount);
  }

  // ---------- the invariant over runs ----------

  lemma {:induction false} StepKeeps(c: Config, m: Market, start: map<Account, nat>, op: Op)
    requires Inv(m, start)
    ensures Inv(Step(c, m, op), start)
  {
    match op
    case Deposit(who, amount) => AddBalanceKeeps(m, start, who, amount);
    case Withdraw(who, amount) => WithdrawKeeps(m, start, who, amount);
    case Publish(provider, registered, offers) => PublishKeeps(c, m, start, provider, registered, offers);
    case Settle(ids) => SettleKeeps(m, start, ids);
    case Activate(provider, sectors) => ActivateKeeps(m, start, provider, sectors);
    case Terminate(provider, sectorNumbers) => OnSectorsTerminateKeeps(m, start, provider, sectorNumbers);
    case EndBlock =>
      OnFinalizeKeeps(m, start);
      TickKeeps(OnFinalize(m), start);
  }

  lemma {:induction false} GenesisInv(now: nat, wallets: map<Account, nat>)
    requires Sum(wallets) <= MAX_BALANCE
    ensures Inv(Genesis(now, wallets), wallets)
  {
    var m := Genesis(now, wallets);
    assert Worth(m.balances) == map[];
    assert Burned(m.history, 0) == 0;
  }

  /** Every state the market can reach satisfies the invariant. */
  lemma {:induction false} RunKeeps(c: Config, m: Market, start: map<Account, nat>, ops: seq<Op>)
    requires Inv(m, start)
    ensures Inv(Run(c, m, ops), start)
  {
    if ops != [] {
      RunKeeps(c, m, start, ops[..|ops| - 1]);
      StepKeeps(c, Run(c, m, ops[..|ops| - 1]), start, ops[|ops| - 1]);
    }
  }

  // ---------- records are final ----------

  /** Records only grow: terms stay, an activation is never undone, and the record of a deal that has
      left the market never changes again. */
  ghost predicate Grows(m: Market, m': Market) {
    && m.nextDealId <= m'.nextDealId
    && (forall id :: id in m.history ==>
          && id in m'.history && m'.history[id].terms == m.history[id].terms
          && (m.history[id].activated ==> m'.history[id].activated))
    && (forall id :: id in m.history && id !in m.proposals ==> m'.history[id] == m.history[id] && id !in m'.proposals)
  }

  lemma {:induction false} GrowsTrans(m: Market, m1: Market, m2: Market)
    requires Grows(m, m1) && Grows(m1, m2)
    ensures Grows(m, m2)
  {
  }

  /** Deals that have left are on record as closed at this very block. */
  ghost predicate ClosedNow(m: Market, m': Market) {
    forall id :: id in m.history && id in m.proposals && id !in m'.proposals ==>
      id in m'.history && m'.history[id].outcome.Some? && m'.history[id].outcome.value.block == m.now
  }

  /** Deals of the market go on or leave, within a block: no deal comes, and no wallet is touched. */
  ghost predicate Proceeds(m: Market, m': Market) {
    SameBlock(m, m') && Grows(m, m') && ClosedNow(m, m')
  }

  ghost predicate SameBlock(m: Market, m': Market) {
    && m'.now == m.now && m'.wallets == m.wallets
    && m'.nextDealId == m.nextDealId && m'.dealsForBlock == m.dealsForBlock
  }

  lemma {:induction false} ProceedsTrans(m: Market, m1: Market, m2: Market)
    requires Proceeds(m, m1) && Proceeds(m1, m2)
    ensures Proceeds(m, m2)
  {
    GrowsTrans(m, m1, m2);
  }

  lemma {:induction false} SettleGrows(m: Market, ids: seq<DealId>)
    ensures SettleDealPayments(m, ids).Ok? ==> Proceeds(m, SettleDealPayments(m, ids).value.0)
  {
    if ids != [] {
      var before := SettleDealPayments(m, ids[..|ids| - 1]);
      SettleGrows(m, ids[..|ids| - 1]);
      if SettleDealPayments(m, ids).Ok? {
        SettleOneGrows(before.value.0, ids[|ids| - 1]);
        ProceedsTrans(m, before.value.0, SettleDealPayments(m, ids).value.0);
      }
    }
  }

  /** A change of one deal of the market and of its record. */
  lemma {:induction false} OneGrows(m: Market, m': Market, id: DealId)
    requires SameBlock(m, m') && id in m.proposals && OnlyAt(m.proposals, m'.proposals, id)
             && OnlyAt(m.history, m'.history, id)
    requires id in m.history ==>
               id in m'.history && m'.history[id].terms == m.history[id].terms
                   && m'.history[id].activated == m.history[id].activated
    requires id in m.history && id !in m'.proposals ==>
               m'.history[id].outcome.Some? && m'.history[id].outcome.value.block == m.now
    ensures Proceeds(m, m')
  {
  }

  lemma {:induction false} SettleOneShape(m: Market, id: DealId) returns (amount: int)
    requires SettleOne(m, id).Ok? && SettleOne(m, id).value.0 != m
    ensures var m' := SettleOne(m, id).value.0;
            && id in m.proposals && SameBlock(m, m')
            && (if id in m'.proposals then
                  && m'.proposals == m.proposals[id := m'.proposals[id]]
                  && m'.history == Paying(m.history, id, amount)
                else
                  && m'.proposals == m.proposals - {id}
                  && m'.history == Leaving(Paying(m.history, id, amount), id, 0, 0, Completed(m.now)))
  {
    var d := m.proposals[id];
    amount := d.price * ((if m.now >= d.end then d.end else m.now) - d.PaidUntil());
  }

  lemma {:induction false} SettleOneGrows(m: Market, id: DealId)
    ensures SettleOne(m, id).Ok? ==> Proceeds(m, SettleOne(m, id).value.0)
  {
    if SettleOne(m, id).Ok? && SettleOne(m, id).value.0 != m {
      var amount := SettleOneShape(m, id);
      OneGrows(m, SettleOne(m, id).value.0, id);
    }
  }

  lemma {:induction false} ActivateEachGrows(m: Market, sector: nat, ids: seq<DealId>)
    requires forall i :: 0 <= i < |ids| ==> ids[i] in m.proposals
    ensures Proceeds(m, ActivateEach(m, sector, ids))
  {
    if ids != [] {
      ActivateEachGrows(m, sector, ids[..|ids| - 1]);
      ProceedsTrans(m, ActivateEach(m, sector, ids[..|ids| - 1]), ActivateEach(m, sector, ids));
    }
  }

  lemma {:induction false} ActivateGrows(m: Market, pending: set<Deal>, provider: Account, sectors: seq<SectorDeal>)
    ensures Proceeds(m, ActivateAll(m, pending, provider, sectors))
  {
    if sectors != [] {
      var m1, s := ActivateAll(m, pending, provider, sectors[..|sectors| - 1]), sectors[|sectors| - 1];
      ActivateGrows(m, pending, provider, sectors[..|sectors| - 1]);
      if SectorValid(m1, pending, provider, s) { ActivateEachGrows(m1, s.sector, s.deals); }
      ProceedsTrans(m, m1, ActivateSector(m1, pending, provider, s));
    }
  }

  lemma {:induction false} CloseGrows(m: Market, id: DealId, d: Deal, payment: nat, rest: nat)
    requires id in m.proposals
    ensures CloseTerminated(m, id, d, payment, rest).Ok? ==> Proceeds(m, CloseTerminated(m, id, d, payment, rest).value)
  {
    var r := CloseTerminated(m, id, d, payment, rest);
    if r.Ok? {
      assert r.value.history == Leaving(Paying(m.history, id, payment), id, rest, d.collateral, Terminated(m.now));
      OneGrows(m, r.value, id);
    }
  }

  lemma {:induction false} TerminateOneGrows(m: Market, provider: Account, id: DealId)
    ensures TerminateOne(m, provider, id).Ok? ==> Proceeds(m, TerminateOne(m, provider, id).value)
  {
    var r := TerminateOne(m, provider, id);
    if r.Ok? && r.value != m {
      var d := m.proposals[id];
      var pending := if d.state.lastUpdated.None? then m.pending - {d} else m.pending;
      var from := CalculateStartBlock(d.start, d.state.lastUpdated);
      var until := if m.now < d.end then m.now else d.end;
      PriceSplit(d.price, from, until, d.end);
      CloseGrows(m.(pending := pending), id, d, d.price * (until - from), d.price * (d.end - until));
    }
  }

  lemma {:induction false} TerminateEachGrows(m: Market, provider: Account, ids: seq<DealId>)
    ensures TerminateEach(m, provider, ids).Ok? ==> Proceeds(m, TerminateEach(m, provider, ids).value)
  {
    if ids != [] && TerminateEach(m, provider, ids).Ok? {
      var m1 := TerminateEach(m, provider, ids[..|ids| - 1]).value;
      TerminateEachGrows(m, provider, ids[..|ids| - 1]);
      TerminateOneGrows(m1, provider, ids[|ids| - 1]);
      ProceedsTrans(m, m1, TerminateEach(m, provider, ids).value);
    }
  }

  lemma {:induction false} TerminateGrows(m: Market, provider: Account, sectors: seq<nat>)
    ensures OnSectorsTerminate(m, provider, sectors).Ok? ==> Proceeds(m, OnSectorsTerminate(m, provider, sectors).value)
  {
    if sectors != [] && OnSectorsTerminate(m, provider, sectors).Ok? {
      var m1, s := OnSectorsTerminate(m, provider, sectors[..|sectors| - 1]).value, sectors[|sectors| - 1];
      TerminateGrows(m, provider, sectors[..|sectors| - 1]);
      if (provider, s) in m1.sectorDeals {
        TerminateEachGrows(m1.(sectorDeals := m1.sectorDeals - {(provider, s)}), provider,
                           m1.sectorDeals[(provider, s)]);
      }
      ProceedsTrans(m, m1, TerminateSector(m1, provider, s).value);
    }
  }

  lemma {:induction false} FinalizeGrows(m: Market, ids: set<DealId>)
    ensures Proceeds(m, FinalizeEach(m, ids))
    decreases ids
  {
    if ids != {} {
      var m1 := FinalizeOne(m, Least(ids));
      assert Proceeds(m, m1);
      FinalizeGrows(m1, ids - {Least(ids)});
      ProceedsTrans(m, m1, FinalizeEach(m, ids));
    }
  }

  ghost predicate Fresh(m: Market) {
    (forall id :: id in m.history ==> id < m.nextDealId) && (forall id :: id in m.proposals ==> id < m.nextDealId)
  }

  lemma {:induction false} PublishOneGrows(c: Config, m: Market, d: Deal)
    requires Fresh(m)
    ensures PublishOne(c, m, d).Ok? ==> Grows(m, PublishOne(c, m, d).value) && Fresh(PublishOne(c, m, d).value)
  {
  }

  lemma {:induction false} PublishGrows(c: Config, m: Market, offers: seq<ClientDeal>)
    requires Fresh(m)
    ensures PublishAll(c, m, offers).Ok?
            ==> Grows(m, PublishAll(c, m, offers).value) && Fresh(PublishAll(c, m, offers).value)
  {
    if offers != [] && PublishAll(c, m, offers).Ok? {
      var m1 := PublishAll(c, m, offers[..|offers| - 1]).value;
      PublishGrows(c, m, offers[..|offers| - 1]);
      PublishOneGrows(c, m1, offers[|offers| - 1].deal);
      GrowsTrans(m, m1, PublishAll(c, m, offers).value);
    }
  }

  lemma {:induction false} StepGrows(c: Config, m: Market, op: Op)
    requires Fresh(m)
    ensures Grows(m, Step(c, m, op))
  {
    match op
    case Deposit(who, amount) => DepositGrows(m, who, amount);
    case Withdraw(who, amount) => WithdrawGrows(m, who, amount);
    case Publish(provider, registered, offers) => PublicationGrows(c, m, provider, registered, offers);
    case Settle(ids) => SettleGrows(m, ids);
    case Activate(provider, sectors) => ActivateGrows(m, m.pending, provider, sectors);
    case Terminate(provider, sectorNumbers) => TerminateGrows(m, provider, sectorNumbers);
    case EndBlock => FinalizeGrows(m, DealsAt(m, m.now));
  }

  /** A deal that leaves the market is on record as closed at the block in which the call was made. */
  lemma {:induction false} StepCloses(c: Config, m: Market, start: map<Account, nat>, op: Op, id: DealId)
    requires Inv(m, start) && id in m.proposals && id !in Step(c, m, op).proposals
    ensures var h := Step(c, m, op).history;
            id in h && h[id].outcome.Some? && h[id].outcome.value.block == m.now
  {
    assert Accounted(m.proposals, m.now, m.history, id);
    match op
    case Deposit(who, amount) =>
    case Withdraw(who, amount) =>
    case Publish(provider, registered, offers) =>
      var m' := PublishStorageDeals(c, m, provider, registered, offers).value;
      PublishEffect(c, m, start, provider, registered, offers, m');
    case Settle(ids) => SettleGrows(m, ids);
    case Activate(provider, sectors) => ActivateGrows(m, m.pending, provider, sectors);
    case Terminate(provider, sectorNumbers) => TerminateGrows(m, provider, sectorNumbers);
    case EndBlock => FinalizeGrows(m, DealsAt(m, m.now));
  }

  /** Only deposits and withdrawals touch wallets. */
  lemma {:induction false} StepWallets(c: Config, m: Market, start: map<Account, nat>, op: Op)
    requires Inv(m, start) && !op.Deposit? && !op.Withdraw?
    ensures Step(c, m, op).wallets == m.wallets
  {
    match op
    case Publish(provider, registered, offers) =>
      var r := PublishStorageDeals(c, m, provider, registered, offers);
      if r.Ok? { PublishEffect(c, m, start, provider, registered, offers, r.value); }
    case Settle(ids) => SettleGrows(m, ids);
    case Activate(provider, sectors) => ActivateGrows(m, m.pending, provider, sectors);
    case Terminate(provider, sectorNumbers) => TerminateGrows(m, provider, sectorNumbers);
    case EndBlock => FinalizeGrows(m, DealsAt(m, m.now));
  }

  lemma {:induction false} DepositGrows(m: Market, who: Account, amount: nat)
    ensures AddBalance(m, who, amount).Ok? ==> Grows(m, AddBalance(m, who, amount).value)
  {
  }

  lemma {:induction false} WithdrawGrows(m: Market, who: Account, amount: nat)
    ensures WithdrawBalance(m, who, amount).Ok? ==> Grows(m, WithdrawBalance(m, who, amount).value)
  {
  }

  lemma {:induction false} PublicationGrows(c: Config, m: Market, provider: Account, registered: bool,
                                            offers: seq<ClientDeal>)
    requires Fresh(m)
    ensures PublishStorageDeals(c, m, provider, registered, offers).Ok? ==>
              Grows(m, PublishStorageDeals(c, m, provider, registered, offers).value)
  {
    if PublishStorageDeals(c, m, provider, registered, offers).Ok? {
      PublishGrows(c, m.(pending := ValidateDeals(c, m, provider, offers).value.pending), offers);
    }
  }

  lemma {:induction false} RunGrows(c: Config, m: Market, start: map<Account, nat>, ops: seq<Op>)
    requires Inv(m, start)
    ensures Grows(m, Run(c, m, ops))
  {
    if ops != [] {
      var m1 := Run(c, m, ops[..|ops| - 1]);
      RunGrows(c, m, start, ops[..|ops| - 1]);
      RunKeeps(c, m, start, ops[..|ops| - 1]);
      StepGrows(c, m1, ops[|ops| - 1]);
      GrowsTrans(m, m1, Run(c, m, ops));
    }
  }

  // ---------- what runs guarantee ----------

  /** Every account's locked funds are the unpaid fees of its deals as a client plus the collateral of
      its deals as a provider. */
  lemma {:induction false} RunBacked(c: Config, now: nat, wallets: map<Account, nat>, ops: seq<Op>, a: Account)
    requires Sum(wallets) <= MAX_BALANCE
    ensures var m := Run(c, Genesis(now, wallets), ops);
            Get(m.balances, a).locked == Backing(m.proposals, a, m.nextDealId)
  {
    GenesisInv(now, wallets);
    RunKeeps(c, Genesis(now, wallets), wallets, ops);
  }

  /** The market account holds exactly the free and locked funds of all accounts, and money leaves
      circulation only as slashed collateral. */
  lemma {:induction false} RunConserves(c: Config, now: nat, wallets: map<Account, nat>, ops: seq<Op>)
    requires Sum(wallets) <= MAX_BALANCE
    ensures var m := Run(c, Genesis(now, wallets), ops);
            && m.pot == Total(m.balances)
            && m.issuance == m.pot + Sum(m.wallets)
            && m.issuance + Burned(m.history, m.nextDealId) == Sum(wallets)
  {
    GenesisInv(now, wallets);
    RunKeeps(c, Genesis(now, wallets), wallets, ops);
  }

  /** What an account owns, in its wallet and in the market, is what it started with, plus what its deals
      paid it as a provider, less what it paid as a client, less its collateral that was burned. */
  lemma {:induction false} RunFair(c: Config, now: nat, wallets: map<Account, nat>, ops: seq<Op>, a: Account)
    requires Sum(wallets) <= MAX_BALANCE
    ensures var m := Run(c, Genesis(now, wallets), ops);
            At(m.wallets, a) + Owns(m.balances, a) == At(wallets, a) + Net(m.history, a, m.nextDealId)
  {
    GenesisInv(now, wallets);
    RunKeeps(c, Genesis(now, wallets), wallets, ops);
  }

  lemma {:induction false} ClosedPays(r: Record, now: nat)
    requires Closed(r, now)
    ensures r.paid + r.refunded == r.terms.Fee()
    ensures r.paid == r.terms.price * (Min(r.outcome.value.block, r.terms.end) - r.terms.start)
  {
    if r.outcome.value.Terminated? { PriceSplit(r.terms.price, r.terms.start, r.outcome.value.block, r.terms.end); }
  }

  /** When a deal has left the market, what its provider was paid and what its client got back add up to
      the whole fee, and the paid part is fixed by the closing block alone, however settlements were split. */
  lemma {:induction false} RunPaysFees(c: Config, now: nat, wallets: map<Account, nat>, ops: seq<Op>, id: DealId)
    requires Sum(wallets) <= MAX_BALANCE
    ensures var m := Run(c, Genesis(now, wallets), ops);
            id < m.nextDealId && id !in m.proposals ==>
              && id in m.history && m.history[id].outcome.Some?
              && var r := m.history[id];
                 && r.paid + r.refunded == r.terms.Fee()
                 && r.paid == r.terms.price * (Min(r.outcome.value.block, r.terms.end) - r.terms.start)
  {
    GenesisInv(now, wallets);
    RunKeeps(c, Genesis(now, wallets), wallets, ops);
    var m := Run(c, Genesis(now, wallets), ops);
    if id < m.nextDealId && id !in m.proposals {
      assert Accounted(m.proposals, m.now, m.history, id);
      ClosedPays(m.history[id], m.now);
    }
  }

  /** Once block b has ended no deal that starts by b is still only published: each was activated, or it
      was refunded and slashed in full at its start, and never both. */
  lemma {:induction false} RunExpires(c: Config, now: nat, wallets: map<Account, nat>, ops: seq<Op>, id: DealId)
    requires Sum(wallets) <= MAX_BALANCE
    ensures var m := Run(c, Genesis(now, wallets), ops);
            && (PublishedAt(m.proposals, id) ==> m.now <= m.proposals[id].start)
            && (id < m.nextDealId ==>
                  && id in m.history
                  && var r := m.history[id];
                     && (r.terms.start < m.now ==> (r.activated <==> r.outcome != Some(Expired(r.terms.start))))
                     && (r.outcome == Some(Expired(r.terms.start)) ==>
                           !r.activated && r.paid == 0 && r.refunded == r.terms.Fee()
                               && r.slashed == r.terms.collateral))
  {
    GenesisInv(now, wallets);
    RunKeeps(c, Genesis(now, wallets), wallets, ops);
    var m := Run(c, Genesis(now, wallets), ops);
    if id in m.proposals { assert DealSane(m.proposals[id], m.now); }
    if id < m.nextDealId { assert Accounted(m.proposals, m.now, m.history, id); }
  }

  /** What became of a deal stays so: continuing the run never pays, refunds or slashes for it again. */
  lemma {:induction false} RunFinal(c: Config, now: nat, wallets: map<Account, nat>, ops: seq<Op>, more: seq<Op>,
                                    id: DealId)
    requires Sum(wallets) <= MAX_BALANCE
    ensures var m := Run(c, Genesis(now, wallets), ops);
            var m' := Run(c, m, more);
            id < m.nextDealId && id !in m.proposals ==>
              id in m.history && id in m'.history && m'.history[id] == m.history[id] && id !in m'.proposals
  {
    GenesisInv(now, wallets);
    RunKeeps(c, Genesis(now, wallets), wallets, ops);
    var m := Run(c, Genesis(now, wallets), ops);
    RunGrows(c, m, wallets, more);
    if id < m.nextDealId { assert Accounted(m.proposals, m.now, m.history, id); }
  }

  // ---------- listings outlive their deals ----------

  /** An activation by the provider that names the sector. */
  ghost predicate Relists(op: Op, provider: Account, sector: nat) {
    op.Activate? && op.provider == provider && exists i :: 0 <= i < |op.sectors| && op.sectors[i].sector == sector
  }

  /** A deal is listed for a sector and has left the market. */
  ghost predicate Stale(m: Market, provider: Account, sector: nat, id: DealId) {
    Lists(m.sectorDeals, provider, sector, id) && id !in m.proposals
  }

  /** What is listed for the sector is as before. */
  ghost predicate SameListing(m: Market, m': Market, provider: Account, sector: nat) {
    forall id :: Lists(m.sectorDeals, provider, sector, id) ==> Lists(m'.sectorDeals, provider, sector, id)
  }

  lemma {:induction false} SettleLists(m: Market, ids: seq<DealId>)
    ensures SettleDealPayments(m, ids).Ok? ==> SettleDealPayments(m, ids).value.0.sectorDeals == m.sectorDeals
  {
    if ids != [] {
      SettleLists(m, ids[..|ids| - 1]);
      var before := SettleDealPayments(m, ids[..|ids| - 1]);
      if before.Ok? { SettleOneLists(before.value.0, ids[|ids| - 1]); }
    }
  }

  lemma {:induction false} SettleOneLists(m: Market, id: DealId)
    ensures SettleOne(m, id).Ok? ==> SettleOne(m, id).value.0.sectorDeals == m.sectorDeals
  {
  }

  lemma {:induction false} PublishLists(c: Config, m: Market, offers: seq<ClientDeal>)
    ensures PublishAll(c, m, offers).Ok? ==> PublishAll(c, m, offers).value.sectorDeals == m.sectorDeals
  {
    if offers != [] { PublishLists(c, m, offers[..|offers| - 1]); }
  }

  lemma {:induction false} PublicationLists(c: Config, m: Market, provider: Account, registered: bool,
                                            offers: seq<ClientDeal>)
    ensures PublishStorageDeals(c, m, provider, registered, offers).Ok? ==>
              PublishStorageDeals(c, m, provider, registered, offers).value.sectorDeals == m.sectorDeals
  {
    if PublishStorageDeals(c, m, provider, registered, offers).Ok? {
      PublishLists(c, m.(pending := ValidateDeals(c, m, provider, offers).value.pending), offers);
    }
  }

  lemma {:induction false} ActivateEachLists(m: Market, sector: nat, ids: seq<DealId>)
    requires forall i :: 0 <= i < |ids| ==> ids[i] in m.proposals
    ensures ActivateEach(m, sector, ids).sectorDeals == m.sectorDeals
  {
    if ids != [] { ActivateEachLists(m, sector, ids[..|ids| - 1]); }
  }

  lemma {:induction false} ActivateLists(m: Market, pending: set<Deal>, caller: Account, sectors: seq<SectorDeal>,
                                         provider: Account, sector: nat)
    requires caller == provider ==> forall i :: 0 <= i < |sectors| ==> sectors[i].sector != sector
    ensures SameListing(m, ActivateAll(m, pending, caller, sectors), provider, sector)
  {
    if sectors != [] {
      var init, s := sectors[..|sectors| - 1], sectors[|sectors| - 1];
      ActivateLists(m, pending, caller, init, provider, sector);
      var m1 := ActivateAll(m, pending, caller, init);
      if SectorValid(m1, pending, caller, s) { ActivateEachLists(m1, s.sector, s.deals); }
    }
  }

  /** A sector with a deal that has left cannot be terminated, alone or with others. */
  lemma {:induction false} StaleFails(m: Market, start: map<Account, nat>, provider: Account, sector: nat, id: DealId,
                                      sectors: seq<nat>)
    requires Inv(m, start) && Stale(m, provider, sector, id) && sector in sectors
    ensures OnSectorsTerminate(m, provider, sectors).Err?
  {
    OnSectorsTerminateKeeps(m, start, provider, sectors);
    var i :| 0 <= i < |sectors| && sectors[i] == sector;
    assert !SectorStartable(m, provider, sectors[i]);
  }

  lemma {:induction false} TerminateLists(m: Market, start: map<Account, nat>, caller: Account, sectors: seq<nat>,
                                          provider: Account, sector: nat, id: DealId)
    requires Inv(m, start) && Stale(m, provider, sector, id)
    ensures SameListing(m, Kept(m, OnSectorsTerminate(m, caller, sectors)), provider, sector)
  {
    if caller == provider && sector in sectors {
      StaleFails(m, start, provider, sector, id, sectors);
    } else if OnSectorsTerminate(m, caller, sectors).Ok? {
      OnSectorsTerminateKeeps(m, start, caller, sectors);
      SweptElsewhere(m, OnSectorsTerminate(m, caller, sectors).value, caller, sectors, provider, sector);
    }
  }

  lemma {:induction false} SweptElsewhere(m: Market, m': Market, caller: Account, sectors: seq<nat>, provider: Account,
                                          sector: nat)
    requires m'.sectorDeals == m.sectorDeals - (set s | s in sectors :: (caller, s))
             && (caller != provider || sector !in sectors)
    ensures SameListing(m, m', provider, sector)
  {
  }

  lemma {:induction false} StepLists(c: Config, m: Market, start: map<Account, nat>, op: Op, provider: Account,
                                     sector: nat, id: DealId)
    requires Inv(m, start) && Stale(m, provider, sector, id) && !Relists(op, provider, sector)
    ensures SameListing(m, Step(c, m, op), provider, sector)
  {
    match op
    case Deposit(who, amount) =>
    case Withdraw(who, amount) =>
    case Publish(caller, registered, offers) => PublicationLists(c, m, caller, registered, offers);
    case Settle(ids) => SettleLists(m, ids);
    case Activate(caller, sectors) =>
      assert caller == provider ==> forall i :: 0 <= i < |sectors| ==> sectors[i].sector != sector;
      ActivateLists(m, m.pending, caller, sectors, provider, sector);
    case Terminate(caller, sectors) => TerminateLists(m, start, caller, sectors, provider, sector, id);
    case EndBlock => FinalizeLists(m, start);
  }

  lemma {:induction false} FinalizeLists(m: Market, start: map<Account, nat>)
    requires Inv(m, start)
    ensures OnFinalize(m).sectorDeals == m.sectorDeals
  {
    forall id | id in DealsAt(m, m.now) && PublishedAt(m.proposals, id) ensures m.proposals[id].start == m.now {
      assert Due(m.dealsForBlock, m.now, id);
    }
    FinalizeEachKeeps(m, start, DealsAt(m, m.now));
  }

  /** Once a deal listed for a sector has left the market, the sector cannot be terminated in any continuation of
      the run, alone or with others, until the provider activates the sector anew. */
  lemma {:induction false} StaleForever(c: Config, m: Market, start: map<Account, nat>, more: seq<Op>,
                                        provider: Account, sector: nat,
                                        id: DealId, sectors: seq<nat>)
    requires Inv(m, start) && Stale(m, provider, sector, id) && sector in sectors
    requires forall j :: 0 <= j < |more| ==> !Relists(more[j], provider, sector)
    ensures Stale(Run(c, m, more), provider, sector, id)
    ensures OnSectorsTerminate(Run(c, m, more), provider, sectors).Err?
  {
    StillStale(c, m, start, more, provider, sector, id);
    RunKeeps(c, m, start, more);
    StaleFails(Run(c, m, more), start, provider, sector, id, sectors);
  }

  lemma {:induction false} StillStale(c: Config, m: Market, start: map<Account, nat>, more: seq<Op>, provider: Account,
                                      sector: nat, id: DealId)
    requires Inv(m, start) && Stale(m, provider, sector, id)
             && forall j :: 0 <= j < |more| ==> !Relists(more[j], provider, sector)
    ensures Stale(Run(c, m, more), provider, sector, id)
  {
    if more != [] {
      var init, op := more[..|more| - 1], more[|more| - 1];
      forall j | 0 <= j < |init| ensures !Relists(init[j], provider, sector) { assert init[j] == more[j]; }
      StillStale(c, m, start, init, provider, sector, id);
      RunKeeps(c, m, start, init);
      StaleStep(c, Run(c, m, init), start, op, provider, sector, id);
    }
  }

  lemma {:induction false} StaleStep(c: Config, m: Market, start: map<Account, nat>, op: Op, provider: Account,
                                     sector: nat, id: DealId)
    requires Inv(m, start) && Stale(m, provider, sector, id) && !Relists(op, provider, sector)
    ensures Stale(Step(c, m, op), provider, sector, id)
  {
    StepLists(c, m, start, op, provider, sector, id);
    StepGrows(c, m, op);
    assert Accounted(m.proposals, m.now, m.history, id);
  }
}
