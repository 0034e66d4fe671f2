/** Publishing deals: what validation promises, and when locking the funds can still fail. */
module MarketPublish {
  import opened Results
  import opened Market
  import opened MarketLedger
  import opened MarketSpec

  type Offers = seq<ClientDeal>

  // ---------- totals of a batch ----------

  /** The fees the batch asks of account a as a client. */
  ghost function FeesOf(offers: Offers, a: Account): int {
    if offers == [] then 0 else
    var d := offers[|offers| - 1].deal;
    FeesOf(offers[..|offers| - 1], a) + (if d.client == a then d.Fee() else 0)
  }

  /** The collateral the batch asks of its provider. */
  ghost function CollateralOf(offers: Offers): int {
    if offers == [] then 0 else CollateralOf(offers[..|offers| - 1]) + offers[|offers| - 1].deal.collateral
  }

  /** The number of deals of the batch that start at block b. */
  ghost function StartsAt(offers: Offers, b: nat): nat {
    if offers == [] then 0 else
    StartsAt(offers[..|offers| - 1], b) + (if offers[|offers| - 1].deal.start == b then 1 else 0)
  }

  ghost function DealsOf(offers: Offers): set<Deal> {
    set o | o in offers :: o.deal
  }

  /** The client signed the offer, its piece is valid, and it is a new deal of this provider that starts in
      time and runs for a time within bounds. */
  ghost predicate Fit(c: Config, o: ClientDeal, provider: Account, now: nat) {
    && o.signed && o.pieceValid && o.deal.provider == provider && o.deal.state == Published
    && now <= o.deal.start < o.deal.end
    && c.minDuration <= o.deal.end - o.deal.start <= c.maxDuration
  }

  /** A deal passes its own checks exactly when it is fit. */
  lemma {:induction false} SanityExact(c: Config, o: ClientDeal, provider: Account, now: nat)
    ensures SanityCheck(c, o, provider, now).Ok? <==> Fit(c, o, provider, now)
  {
  }

  /** Of an unfit deal the first thing amiss is reported. */
  lemma {:induction false} SanityErrors(c: Config, o: ClientDeal, provider: Account, now: nat)
    requires !Fit(c, o, provider, now)
    ensures var error := SanityCheck(c, o, provider, now).error;
            && (error == WrongClientSignature <==> !o.signed)
            && (error == InvalidPieceCid <==> o.signed && !o.pieceValid)
            && (error == PublishedByIncorrectStorageProvider <==>
                  o.signed && o.pieceValid && o.deal.provider != provider)
            && (o.signed && o.pieceValid && o.deal.provider == provider ==>
                  && (error == DealEndBeforeStart <==> o.deal.end <= o.deal.start)
                  && (error == DealStartExpired <==> o.deal.start < now && o.deal.start < o.deal.end)
                  && (error == DealDurationOutOfBounds <==>
                        now <= o.deal.start < o.deal.end && o.deal.state == Published))
  {
  }

  ghost predicate AllFit(c: Config, offers: Offers, provider: Account, now: nat) {
    forall i :: 0 <= i < |offers| ==> Fit(c, offers[i], provider, now)
  }

  /** No deal of the batch is pending already or named twice. */
  ghost predicate AllNew(pending: set<Deal>, offers: Offers) {
    && (forall i :: 0 <= i < |offers| ==> offers[i].deal !in pending)
    && (forall i, j :: 0 <= i < j < |offers| ==> offers[i].deal != offers[j].deal)
  }

  /** Every client can pay its fees, and the provider its collateral, out of free funds. */
  ghost predicate Affordable(b: Balances, offers: Offers, provider: Account) {
    && (forall a :: FeesOf(offers, a) <= Get(b, a).free)
    && CollateralOf(offers) <= Get(b, provider).free
  }

  lemma {:induction false} FeesNonNegative(c: Config, offers: Offers, provider: Account, now: nat, a: Account)
    requires AllFit(c, offers, provider, now)
    ensures FeesOf(offers, a) >= 0 && CollateralOf(offers) >= 0
  {
    if offers != [] {
      var o := offers[|offers| - 1];
      assert Fit(c, o, provider, now);
      PriceSplit(o.deal.price, o.deal.start, o.deal.end, o.deal.end);
      FitSnoc(c, offers, provider, now);
      FeesNonNegative(c, offers[..|offers| - 1], provider, now, a);
    }
  }

  lemma {:induction false} FitSnoc(c: Config, offers: Offers, provider: Account, now: nat)
    requires offers != []
    ensures AllFit(c, offers, provider, now) <==>
            AllFit(c, offers[..|offers| - 1], provider, now) && Fit(c, offers[|offers| - 1], provider, now)
  {
    var init := offers[..|offers| - 1];
    assert forall i :: 0 <= i < |init| ==> init[i] == offers[i];
    if AllFit(c, offers, provider, now) {
      forall i | 0 <= i < |init| ensures Fit(c, init[i], provider, now) { assert init[i] == offers[i]; }
    }
  }

  lemma {:induction false} NewSnoc(pending: set<Deal>, offers: Offers)
    requires offers != []
    ensures AllNew(pending, offers) <==>
            AllNew(pending, offers[..|offers| - 1])
                && offers[|offers| - 1].deal !in pending + DealsOf(offers[..|offers| - 1])
    ensures DealsOf(offers) == DealsOf(offers[..|offers| - 1]) + {offers[|offers| - 1].deal}
  {
    var init, last := offers[..|offers| - 1], offers[|offers| - 1];
    assert forall i :: 0 <= i < |init| ==> init[i] == offers[i];
    assert forall o :: o in offers <==> o in init || o == last;
    if AllNew(pending, offers) {
      forall i | 0 <= i < |init| ensures init[i].deal != last.deal { assert init[i] == offers[i]; }
    }
    if AllNew(pending, init) && last.deal !in pending + DealsOf(init) {
      forall i, j | 0 <= i < j < |offers| ensures offers[i].deal != offers[j].deal {
        assert offers[i] == init[i] && init[i].deal in DealsOf(init);
      }
    }
  }

  lemma {:induction false} AffordableSnoc(c: Config, b: Balances, offers: Offers, provider: Account, now: nat)
    requires offers != [] && AllFit(c, offers, provider, now)
    ensures var init, d := offers[..|offers| - 1], offers[|offers| - 1].deal;
            Affordable(b, offers, provider) <==>
            && Affordable(b, init, provider)
            && FeesOf(init, d.client) + d.Fee() <= Get(b, d.client).free
            && CollateralOf(init) + d.collateral <= Get(b, provider).free
  {
    var init, d := offers[..|offers| - 1], offers[|offers| - 1].deal;
    assert Fit(c, offers[|offers| - 1], provider, now);
    PriceSplit(d.price, d.start, d.end, d.end);
    assert FeesOf(offers, d.client) == FeesOf(init, d.client) + d.Fee();
    if Affordable(b, offers, provider) {
      forall a ensures FeesOf(init, a) <= Get(b, a).free { assert FeesOf(offers, a) <= Get(b, a).free; }
    }
  }

  // ---------- validation ----------

  /** What validation has added up. */
  ghost predicate Tallied(m: Market, offers: Offers, k: Checked) {
    && (forall a :: Lockup(k, a) == FeesOf(offers, a))
    && k.providerLockup == CollateralOf(offers)
    && k.pending == m.pending + DealsOf(offers)
  }

  ghost predicate Acceptable(c: Config, m: Market, provider: Account, offers: Offers) {
    && AllFit(c, offers, provider, m.now)
    && AllNew(m.pending, offers)
    && Affordable(m.balances, offers, provider)
    && (offers == [] || |m.pending + DealsOf(offers)| <= c.maxDeals)
  }

  /** What validating one more deal asks. */
  ghost predicate NextAcceptable(c: Config, m: Market, provider: Account, init: Offers, o: ClientDeal) {
    && Fit(c, o, provider, m.now)
    && FeesOf(init, o.deal.client) + o.deal.Fee() <= Get(m.balances, o.deal.client).free
    && CollateralOf(init) + o.deal.collateral <= Get(m.balances, provider).free
    && o.deal !in m.pending + DealsOf(init)
    && |m.pending + DealsOf(init)| < c.maxDeals
  }

  lemma {:induction false} AcceptableSnoc(c: Config, m: Market, provider: Account, offers: Offers)
    requires offers != []
    ensures Acceptable(c, m, provider, offers) <==>
            && Acceptable(c, m, provider, offers[..|offers| - 1])
            && NextAcceptable(c, m, provider, offers[..|offers| - 1], offers[|offers| - 1])
  {
    FitSnoc(c, offers, provider, m.now);
    NewSnoc(m.pending, offers);
    if AllFit(c, offers, provider, m.now) { AffordableSnoc(c, m.balances, offers, provider, m.now); }
    assert m.pending + DealsOf(offers) == m.pending + DealsOf(offers[..|offers| - 1]) + {offers[|offers| - 1].deal};
  }

  lemma {:induction false} ValidateOneExact(c: Config, m: Market, provider: Account, init: Offers, o: ClientDeal,
                                            k: Checked)
    requires Total(m.balances) <= MAX_BALANCE && Tallied(m, init, k)
    ensures ValidateOne(c, m, provider, o, k).Ok? <==> NextAcceptable(c, m, provider, init, o)
    ensures ValidateOne(c, m, provider, o, k).Ok? ==> Tallied(m, init + [o], ValidateOne(c, m, provider, o, k).value)
  {
    SanityExact(c, o, provider, m.now);
    TotalCovers(m.balances, o.deal.client);
    TotalCovers(m.balances, o.deal.provider);
    assert (init + [o])[..|init|] == init;
    NewSnoc(m.pending, init + [o]);
  }

  /** Validation accepts exactly the batches that fit, are new, and can be afforded. */
  lemma {:induction false} ValidateExact(c: Config, m: Market, provider: Account, offers: Offers)
    requires Total(m.balances) <= MAX_BALANCE
    ensures ValidateAll(c, m, provider, offers).Ok? <==> Acceptable(c, m, provider, offers)
    ensures ValidateAll(c, m, provider, offers).Ok? ==> Tallied(m, offers, ValidateAll(c, m, provider, offers).value)
  {
    if offers != [] {
      var init, o := offers[..|offers| - 1], offers[|offers| - 1];
      assert offers == init + [o];
      ValidateExact(c, m, provider, init);
      AcceptableSnoc(c, m, provider, offers);
      if ValidateAll(c, m, provider, init).Ok? {
        ValidateOneExact(c, m, provider, init, o, ValidateAll(c, m, provider, init).value);
      }
    } else {
      assert AllNew(m.pending, offers) && AllFit(c, offers, provider, m.now);
      assert DealsOf(offers) == {};
    }
  }

  // ---------- booking ----------

  lemma {:induction false} OwingBook(b: Balances, b': Balances, ps: Deals, next: DealId, debtor: Account, debt: int,
                                     d: Deal)
    requires Owing(b, ps, next, debtor, debt) && next !in ps && d.provider == debtor && d.state == Published
    requires Moved(b, b', d.client, 0 - d.Fee(), d.Fee())
    ensures Owing(b', ps[next := d], next + 1, debtor, debt + d.collateral)
  {
    var ps' := ps[next := d];
    forall a ensures Get(b', a).locked == Backing(ps', a, next + 1) - (if a == debtor then debt + d.collateral else 0) {
      BackingChange(ps, ps', next, a, next);
    }
  }

  lemma {:induction false} PendingBook(ps: Deals, pending: set<Deal>, next: DealId, d: Deal)
    requires PendingExact(ps, pending) && next !in ps && d.state == Published && d !in pending
    ensures PendingExact(ps[next := d], pending + {d})
  {
    var ps' := ps[next := d];
    assert PublishedAt(ps', next) && ps'[next] == d;
    forall x ensures x in pending + {d} <==> PublishedDeal(ps', x) {
      if x in pending {
        var k :| PublishedAt(ps, k) && ps[k] == x;
        assert PublishedAt(ps', k) && ps'[k] == x;
      }
      if k :| PublishedAt(ps', k) && ps'[k] == x && k != next {
        assert PublishedAt(ps, k) && ps[k] == x && PublishedDeal(ps, x);
      }
    }
    forall i | PublishedAt(ps', i) && ps'[i] == d ensures i == next {
      assert i != next ==> PublishedAt(ps, i) && PublishedDeal(ps, d);
    }
    forall i, j | PublishedAt(ps', i) && PublishedAt(ps', j) && ps'[i] == ps'[j] ensures i == j {
      assert i != next ==> PublishedAt(ps, i);
      assert j != next ==> PublishedAt(ps, j);
    }
  }

  lemma {:induction false} ScheduledBook(ps: Deals, next: DealId, blocks: Schedule, blocks': Schedule, d: Deal)
    requires Scheduled(ps, next, blocks) && next !in ps && d.state == Published
    requires blocks' == blocks[d.start := (if d.start in blocks then blocks[d.start] else {}) + {next}]
    ensures Scheduled(ps[next := d], next + 1, blocks')
  {
    var ps' := ps[next := d];
    forall id: DealId | PublishedAt(ps', id) ensures Due(blocks', ps'[id].start, id) {
      if id != next { assert PublishedAt(ps, id) && Due(blocks, ps[id].start, id); }
    }
    forall b: nat, id: DealId | Due(blocks', b, id) ensures id < next + 1 && (id in ps' ==> ps'[id].start == b) {
      assert id != next ==> Due(blocks, b, id);
      assert !Due(blocks, b, next);
    }
  }

  lemma {:induction false} SectorsBook(ps: Deals, next: DealId, sectors: Sectors, d: Deal)
    requires SectorsExact(ps, next, sectors)
    ensures SectorsExact(ps[next := d], next + 1, sectors)
  {
  }

  lemma {:induction false} AccountedBook(ps: Deals, next: DealId, now: nat, h: History, d: Deal)
    requires AllAccounted(ps, next, now, h) && d.state == Published
    ensures AllAccounted(ps[next := d], next + 1, now, h[next := Record(d, false, 0, 0, 0, None)])
    ensures Burned(h[next := Record(d, false, 0, 0, 0, None)], next + 1) == Burned(h, next)
    ensures forall a :: Net(h[next := Record(d, false, 0, 0, 0, None)], a, next + 1) == Net(h, a, next)
  {
    var ps', h' := ps[next := d], h[next := Record(d, false, 0, 0, 0, None)];
    forall id | 0 <= id < next + 1 ensures Accounted(ps', now, h', id) {
      assert id < next ==> Accounted(ps, now, h, id);
    }
    BurnedSame(h, h', next);
    forall a ensures Net(h', a, next + 1) == Net(h, a, next) { NetSame(h, h', a, next); }
  }

  lemma {:induction false} NetSame(h: History, h': History, a: Account, n: nat)
    requires forall k :: 0 <= k < n ==> (k in h' <==> k in h) && (k in h ==> h'[k] == h[k])
    ensures Net(h', a, n) == Net(h, a, n)
  {
    if n > 0 { NetSame(h, h', a, n - 1); }
  }

  lemma {:induction false} BurnedSame(h: History, h': History, n: nat)
    requires forall k :: 0 <= k < n ==> (k in h' <==> k in h) && (k in h ==> h'[k] == h[k])
    ensures Burned(h', n) == Burned(h, n)
  {
    if n > 0 { BurnedSame(h, h', n - 1); }
  }

  /** m' is m with the batch booked, the clients' fees locked and the provider's collateral still owed. */
  ghost predicate BookedFunds(m: Market, m': Market, provider: Account, offers: Offers) {
    && m'.now == m.now && m'.pot == m.pot && m'.wallets == m.wallets && m'.issuance == m.issuance
    && Owing(m'.balances, m'.proposals, m'.nextDealId, provider, CollateralOf(offers))
    && Total(m'.balances) == Total(m.balances)
    && FeesTaken(m.balances, m'.balances, offers)
  }

  ghost predicate BookedIndexes(m: Market, m': Market, offers: Offers) {
    && Sane(m'.proposals, m'.nextDealId, m.now)
    && PendingExact(m'.proposals, m.pending + DealsOf(offers))
    && Scheduled(m'.proposals, m'.nextDealId, m'.dealsForBlock)
    && SectorsExact(m'.proposals, m'.nextDealId, m'.sectorDeals)
  }

  ghost predicate BookedRecords(m: Market, m': Market) {
    && AllAccounted(m'.proposals, m'.nextDealId, m.now, m'.history)
    && Burned(m'.history, m'.nextDealId) == Burned(m.history, m.nextDealId)
    && (forall a :: Net(m'.history, a, m'.nextDealId) == Net(m.history, a, m.nextDealId))
  }

  ghost predicate BookedCounts(m: Market, m': Market, offers: Offers) {
    forall b :: |DealsAt(m', b)| == |DealsAt(m, b)| + StartsAt(offers, b)
  }

  ghost predicate Booked(m: Market, m': Market, provider: Account, offers: Offers) {
    BookedFunds(m, m', provider, offers) && BookedIndexes(m, m', offers) && BookedRecords(m, m')
        && BookedCounts(m, m', offers)
  }

  lemma {:induction false} BookFunds(m: Market, m1: Market, provider: Account, init: Offers, o: ClientDeal, b: Balances)
    requires BookedFunds(m, m1, provider, init) && Sane(m1.proposals, m1.nextDealId, m.now)
    requires o.deal.provider == provider && o.deal.state == Published
    requires Moved(m1.balances, b, o.deal.client, 0 - o.deal.Fee(), o.deal.Fee()) && Total(b) == Total(m1.balances)
    ensures BookedFunds(m, Book(m1, b, o.deal), provider, init + [o])
  {
    BatchSnoc(init, o);
    OwingBook(m1.balances, b, m1.proposals, m1.nextDealId, provider, CollateralOf(init), o.deal);
    BookFees(m.balances, m1.balances, b, init, o);
  }

  lemma {:induction false} BatchSnoc(init: Offers, o: ClientDeal)
    ensures CollateralOf(init + [o]) == CollateralOf(init) + o.deal.collateral
    ensures forall a :: FeesOf(init + [o], a) == FeesOf(init, a) + (if o.deal.client == a then o.deal.Fee() else 0)
  {
    assert (init + [o])[..|init|] == init;
  }

  ghost predicate FeesTaken(b: Balances, b': Balances, offers: Offers) {
    forall a :: Get(b', a).free == Get(b, a).free - FeesOf(offers, a) && Owns(b', a) == Owns(b, a)
  }

  lemma {:induction false} BookFees(b: Balances, b1: Balances, b2: Balances, init: Offers, o: ClientDeal)
    requires FeesTaken(b, b1, init) && Moved(b1, b2, o.deal.client, 0 - o.deal.Fee(), o.deal.Fee())
    ensures FeesTaken(b, b2, init + [o])
  {
    BatchSnoc(init, o);
  }

  lemma {:induction false} BookIndexes(m: Market, m1: Market, init: Offers, o: ClientDeal, b: Balances)
    requires BookedIndexes(m, m1, init)
    requires o.deal.state == Published && m.now <= o.deal.start < o.deal.end && o.deal !in m.pending + DealsOf(init)
    ensures BookedIndexes(m, Book(m1, b, o.deal), init + [o])
  {
    var d, m2, next := o.deal, Book(m1, b, o.deal), m1.nextDealId;
    PendingBook(m1.proposals, m.pending + DealsOf(init), next, d);
    assert m.pending + DealsOf(init + [o]) == m.pending + DealsOf(init) + {d} by {
      assert (init + [o])[..|init|] == init;
      NewSnoc(m.pending, init + [o]);
    }
    ScheduledBook(m1.proposals, next, m1.dealsForBlock, m2.dealsForBlock, d);
    SectorsBook(m1.proposals, next, m1.sectorDeals, d);
  }

  lemma {:induction false} BookRecords(m: Market, m1: Market, d: Deal, b: Balances)
    requires BookedRecords(m, m1) && d.state == Published
    ensures BookedRecords(m, Book(m1, b, d))
  {
    AccountedBook(m1.proposals, m1.nextDealId, m.now, m1.history, d);
  }

  lemma {:induction false} BookCounts(m: Market, m1: Market, init: Offers, o: ClientDeal, b: Balances)
    requires BookedCounts(m, m1, init) && Scheduled(m1.proposals, m1.nextDealId, m1.dealsForBlock)
    ensures BookedCounts(m, Book(m1, b, o.deal), init + [o])
  {
    var m2, next := Book(m1, b, o.deal), m1.nextDealId;
    assert next !in DealsAt(m1, o.deal.start) by { assert !Due(m1.dealsForBlock, o.deal.start, next); }
    assert (init + [o])[..|init|] == init;
    forall x ensures |DealsAt(m2, x)| == |DealsAt(m, x)| + StartsAt(init + [o], x) {
      assert |DealsAt(m1, x)| == |DealsAt(m, x)| + StartsAt(init, x);
    }
  }

  /** Each start block has room for the batch. */
  ghost predicate BlocksFit(c: Config, m: Market, offers: Offers) {
    forall i :: 0 <= i < |offers| ==>
      |DealsAt(m, offers[i].deal.start)| + StartsAt(offers[..i], offers[i].deal.start) < c.maxDealsPerBlock
  }

  lemma {:induction false} BlocksFitSnoc(c: Config, m: Market, init: Offers, o: ClientDeal)
    ensures BlocksFit(c, m, init + [o]) <==>
            BlocksFit(c, m, init) && |DealsAt(m, o.deal.start)| + StartsAt(init, o.deal.start) < c.maxDealsPerBlock
  {
    var offers := init + [o];
    assert offers[..|init|] == init && offers[|init|] == o;
    assert forall i :: 0 <= i < |init| ==> offers[..i] == init[..i] && offers[i] == init[i];
  }

  lemma {:induction false} PublishOneLocks(c: Config, m: Market, m1: Market, provider: Account, init: Offers,
                                           o: ClientDeal) returns (b: Balances)
    requires BookedFunds(m, m1, provider, init) && Total(m.balances) <= MAX_BALANCE
    requires NextAcceptable(c, m, provider, init, o)
    ensures Moved(m1.balances, b, o.deal.client, 0 - o.deal.Fee(), o.deal.Fee()) && Total(b) == Total(m1.balances)
    ensures PublishOne(c, m1, o.deal)
            == if |DealsAt(m1, o.deal.start)| >= c.maxDealsPerBlock then Err(TooManyDealsPerBlock)
                else Ok(Book(m1, b, o.deal))
  {
    var d := o.deal;
    PriceSplit(d.price, d.start, d.end, d.end);
    LockEffect(m1.balances, d.client, d.Fee());
    b := LockFunds(m1.balances, d.client, d.Fee()).value;
  }

  lemma {:induction false} PublishOneBooks(c: Config, m: Market, m1: Market, provider: Account, init: Offers,
                                           o: ClientDeal)
    requires Booked(m, m1, provider, init) && Total(m.balances) <= MAX_BALANCE
    requires NextAcceptable(c, m, provider, init, o)
    ensures var r := PublishOne(c, m1, o.deal);
            && (r.Ok? <==> |DealsAt(m, o.deal.start)| + StartsAt(init, o.deal.start) < c.maxDealsPerBlock)
            && (r.Err? ==> r.error == TooManyDealsPerBlock)
            && (r.Ok? ==> Booked(m, r.value, provider, init + [o]) && r.value.pending == m1.pending)
  {
    var b := PublishOneLocks(c, m, m1, provider, init, o);
    assert |DealsAt(m1, o.deal.start)| == |DealsAt(m, o.deal.start)| + StartsAt(init, o.deal.start);
    BookFunds(m, m1, provider, init, o, b);
    BookIndexes(m, m1, init, o, b);
    BookRecords(m, m1, o.deal, b);
    BookCounts(m, m1, init, o, b);
  }

  /** The clients' fees of an acceptable batch can always be locked; only a full block stops the booking. */
  lemma {:induction false} PublishAllBooks(c: Config, m: Market, start: map<Account, nat>, pending: set<Deal>,
                                           provider: Account, offers: Offers)
    requires Inv(m, start) && Acceptable(c, m, provider, offers)
    ensures var r := PublishAll(c, m.(pending := pending), offers);
            && (r.Ok? <==> BlocksFit(c, m, offers))
            && (r.Err? ==> r.error == TooManyDealsPerBlock)
            && (r.Ok? ==> Booked(m, r.value, provider, offers) && r.value.pending == pending)
  {
    if offers == [] {
      assert m.pending + DealsOf(offers) == m.pending;
    } else {
      var init, o := offers[..|offers| - 1], offers[|offers| - 1];
      assert init + [o] == offers;
      AcceptableSnoc(c, m, provider, offers);
      PublishAllBooks(c, m, start, pending, provider, init);
      BlocksFitSnoc(c, m, init, o);
      var r := PublishAll(c, m.(pending := pending), init);
      if r.Ok? { PublishOneBooks(c, m, r.value, provider, init, o); }
    }
  }

  // ---------- publishing ----------

  /** The provider can lock the collateral exactly when it also has the fees of its deals with itself. */
  ghost predicate SelfAffordable(m: Market, provider: Account, offers: Offers) {
    FeesOf(offers, provider) + CollateralOf(offers) <= Get(m.balances, provider).free
  }

  lemma {:induction false} LockCollateral(m: Market, m1: Market, start: map<Account, nat>, provider: Account,
                                          offers: Offers)
    requires Inv(m, start) && Booked(m, m1, provider, offers)
    requires m1.pending == m.pending + DealsOf(offers) && CollateralOf(offers) >= 0
    ensures LockFunds(m1.balances, provider, CollateralOf(offers)).Ok? <==> SelfAffordable(m, provider, offers)
    ensures LockFunds(m1.balances, provider, CollateralOf(offers)).Err? ==>
              LockFunds(m1.balances, provider, CollateralOf(offers)).error == Underflow
    ensures LockFunds(m1.balances, provider, CollateralOf(offers)).Ok? ==>
              Inv(m1.(balances := LockFunds(m1.balances, provider, CollateralOf(offers)).value), start)
  {
    LockEffect(m1.balances, provider, CollateralOf(offers));
    TotalCovers(m1.balances, provider);
  }

  ghost predicate Validated(c: Config, m: Market, caller: Account, registered: bool, offers: Offers) {
    registered && offers != [] && offers[0].deal.provider == caller && Acceptable(c, m, caller, offers)
  }

  /** A validated batch is published exactly when its blocks have room and the provider can afford its
      collateral on top of its fees to itself; the invariant is kept. */
  lemma {:induction false} PublishKeeps(c: Config, m: Market, start: map<Account, nat>, provider: Account,
                                        registered: bool, offers: Offers)
    requires Inv(m, start)
    ensures var r := PublishStorageDeals(c, m, provider, registered, offers);
            && (r.Ok? <==> && Validated(c, m, provider, registered, offers)
                           && BlocksFit(c, m, offers) && SelfAffordable(m, provider, offers))
            && (Validated(c, m, provider, registered, offers) && r.Err? ==>
                  r.error == if BlocksFit(c, m, offers) then Underflow else TooManyDealsPerBlock)
            && (r.Ok? ==> Inv(r.value, start))
  {
    ValidateExact(c, m, provider, offers);
    if Validated(c, m, provider, registered, offers) {
      var k := ValidateAll(c, m, provider, offers).value;
      FeesNonNegative(c, offers, provider, m.now, provider);
      PublishAllBooks(c, m, start, k.pending, provider, offers);
      if BlocksFit(c, m, offers) {
        LockCollateral(m, PublishAll(c, m.(pending := k.pending), offers).value, start, provider, offers);
      }
    }
  }

  /** The deals of the batch are in the market under the next identifiers, in order; no other deal has changed. */
  ghost predicate Numbered(ps: Deals, ps': Deals, next: DealId, offers: Offers) {
    && (forall k :: k in ps ==> k in ps' && ps'[k] == ps[k])
    && (forall k :: next <= k < next + |offers| ==> k in ps' && ps'[k] == offers[k - next].deal)
    && (forall k :: k in ps' ==> k in ps || next <= k < next + |offers|)
  }

  /** They are due at their start blocks. */
  ghost predicate Dated(m: Market, m': Market, next: DealId, offers: Offers) {
    forall b, k :: k in DealsAt(m', b) <==>
      k in DealsAt(m, b) || (next <= k < next + |offers| && offers[k - next].deal.start == b)
  }

  lemma {:induction false} NumberedSnoc(ps: Deals, ps1: Deals, next: DealId, init: Offers, o: ClientDeal)
    requires Numbered(ps, ps1, next, init) && forall k :: k in ps ==> k < next
    ensures Numbered(ps, ps1[next + |init| := o.deal], next, init + [o])
  {
  }

  lemma {:induction false} DatedSnoc(m: Market, m1: Market, m2: Market, next: DealId, init: Offers, o: ClientDeal,
                                     id: DealId)
    requires Dated(m, m1, next, init) && id == next + |init|
    requires m2.dealsForBlock == m1.dealsForBlock[o.deal.start := DealsAt(m1, o.deal.start) + {id}]
    ensures Dated(m, m2, next, init + [o])
  {
    var offers := init + [o];
    forall b, k ensures k in DealsAt(m2, b) <==>
                        k in DealsAt(m, b) || (next <= k < next + |offers| && offers[k - next].deal.start == b)
    {
      assert k in DealsAt(m2, b) <==> k in DealsAt(m1, b) || (k == id && b == o.deal.start);
    }
  }

  /** Booking touches deals, their schedule and their records, and locks funds. */
  ghost predicate OnlyBooked(m: Market, m': Market, next: DealId) {
    m' == m.(balances := m'.balances, nextDealId := next, proposals := m'.proposals,
             dealsForBlock := m'.dealsForBlock, history := m'.history)
  }

  lemma {:induction false} PublishAllNumbers(c: Config, m: Market, offers: Offers, m': Market)
    requires (forall k :: k in m.proposals ==> k < m.nextDealId) && PublishAll(c, m, offers) == Ok(m')
    ensures BatchBooked(m, m', offers)
  {
    if offers != [] {
      var m1 := PublishLast(c, m, offers, m');
      PublishAllNumbers(c, m, offers[..|offers| - 1], m1);
      BookedNext(m, m1, m', offers);
    }
  }

  ghost predicate BatchBooked(m: Market, m': Market, offers: Offers) {
    && OnlyBooked(m, m', m.nextDealId + |offers|)
    && Numbered(m.proposals, m'.proposals, m.nextDealId, offers) && Dated(m, m', m.nextDealId, offers)
  }

  lemma {:induction false} BookedNext(m: Market, m1: Market, m': Market, offers: Offers)
    requires offers != [] && forall k :: k in m.proposals ==> k < m.nextDealId
    requires BatchBooked(m, m1, offers[..|offers| - 1]) && OnlyBooked(m1, m', m1.nextDealId + 1)
    requires var d := offers[|offers| - 1].deal;
             && m'.proposals == m1.proposals[m1.nextDealId := d]
             && m'.dealsForBlock == m1.dealsForBlock[d.start := DealsAt(m1, d.start) + {m1.nextDealId}]
    ensures BatchBooked(m, m', offers)
  {
    var init, o := offers[..|offers| - 1], offers[|offers| - 1];
    assert init + [o] == offers;
    NumberedSnoc(m.proposals, m1.proposals, m.nextDealId, init, o);
    DatedSnoc(m, m1, m', m.nextDealId, init, o, m1.nextDealId);
  }

  lemma {:induction false} PublishLast(c: Config, m: Market, offers: Offers, m': Market) returns (m1: Market)
    requires offers != [] && PublishAll(c, m, offers) == Ok(m')
    ensures PublishAll(c, m, offers[..|offers| - 1]) == Ok(m1) && OnlyBooked(m1, m', m1.nextDealId + 1)
    ensures var d := offers[|offers| - 1].deal;
            && m'.proposals == m1.proposals[m1.nextDealId := d]
            && m'.dealsForBlock == m1.dealsForBlock[d.start := DealsAt(m1, d.start) + {m1.nextDealId}]
  {
    m1 := PublishAll(c, m, offers[..|offers| - 1]).value;
  }

  /** Every client has its fees locked and the provider its collateral. */
  ghost predicate FundsLocked(b: Balances, b': Balances, provider: Account, offers: Offers) {
    forall a ::
      && Get(b', a).free == Get(b, a).free - FeesOf(offers, a) - (if a == provider then CollateralOf(offers) else 0)
      && Owns(b', a) == Owns(b, a)
  }

  lemma {:induction false} PublishedBy(c: Config, m: Market, start: map<Account, nat>, provider: Account,
                                       registered: bool, offers: Offers, m': Market)
      returns (m1: Market)
    requires Inv(m, start) && PublishStorageDeals(c, m, provider, registered, offers) == Ok(m')
    ensures PublishAll(c, m.(pending := m.pending + DealsOf(offers)), offers) == Ok(m1)
    ensures FeesTaken(m.balances, m1.balances, offers) && Total(m1.balances) <= MAX_BALANCE
    ensures CollateralOf(offers) >= 0 && LockFunds(m1.balances, provider, CollateralOf(offers)).Ok?
    ensures m' == m1.(balances := LockFunds(m1.balances, provider, CollateralOf(offers)).value)
  {
    PublishKeeps(c, m, start, provider, registered, offers);
    ValidateExact(c, m, provider, offers);
    var k := ValidateAll(c, m, provider, offers).value;
    FeesNonNegative(c, offers, provider, m.now, provider);
    PublishAllBooks(c, m, start, k.pending, provider, offers);
    m1 := PublishAll(c, m.(pending := k.pending), offers).value;
  }

  /** What a publication does: the deals get the next identifiers, are pending and due at their start blocks, and
      exactly the fees and the collateral are locked. */
  lemma {:induction false} PublishEffect(c: Config, m: Market, start: map<Account, nat>, provider: Account,
                                         registered: bool, offers: Offers, m': Market)
    requires Inv(m, start) && PublishStorageDeals(c, m, provider, registered, offers) == Ok(m')
    ensures m'.pending == m.pending + DealsOf(offers)
    ensures OnlyBooked(m.(pending := m'.pending), m', m.nextDealId + |offers|)
    ensures Numbered(m.proposals, m'.proposals, m.nextDealId, offers) && Dated(m, m', m.nextDealId, offers)
    ensures FundsLocked(m.balances, m'.balances, provider, offers)
  {
    var m1 := PublishedBy(c, m, start, provider, registered, offers, m');
    KnownIds(m, start);
    PublishAllNumbers(c, m.(pending := m.pending + DealsOf(offers)), offers, m1);
    LockedLast(m.balances, m1.balances, provider, offers);
    assert Dated(m, m1, m.nextDealId, offers);
    assert forall b :: DealsAt(m', b) == DealsAt(m1, b);
  }

  lemma {:induction false} LockedLast(b: Balances, b1: Balances, provider: Account, offers: Offers)
    requires FeesTaken(b, b1, offers) && Total(b1) <= MAX_BALANCE && CollateralOf(offers) >= 0
    requires LockFunds(b1, provider, CollateralOf(offers)).Ok?
    ensures FundsLocked(b, LockFunds(b1, provider, CollateralOf(offers)).value, provider, offers)
  {
    LockEffect(b1, provider, CollateralOf(offers));
  }

  lemma {:induction false} KnownIds(m: Market, start: map<Account, nat>)
    requires Inv(m, start)
    ensures forall k :: k in m.proposals ==> k < m.nextDealId
  {
  }

  lemma {:induction false} NoSelfFees(offers: Offers, a: Account)
    requires forall i :: 0 <= i < |offers| ==> offers[i].deal.client != a
    ensures FeesOf(offers, a) == 0
  {
    if offers != [] { NoSelfFees(offers[..|offers| - 1], a); }
  }

  /** Without deals of the provider with itself, no step of locking funds fails once validation has passed. */
  lemma {:induction false} PublishLocksFunds(c: Config, m: Market, start: map<Account, nat>, provider: Account,
                                             registered: bool, offers: Offers)
    requires Inv(m, start) && Validated(c, m, provider, registered, offers)
    requires forall i :: 0 <= i < |offers| ==> offers[i].deal.client != provider
    ensures PublishStorageDeals(c, m, provider, registered, offers).Ok? <==> BlocksFit(c, m, offers)
    ensures PublishStorageDeals(c, m, provider, registered, offers).Err? ==>
              PublishStorageDeals(c, m, provider, registered, offers).error == TooManyDealsPerBlock
  {
    PublishKeeps(c, m, start, provider, registered, offers);
    NoSelfFees(offers, provider);
  }

  /** With such deals, a batch that passes validation can still fail to lock the collateral. */
  lemma {:induction false} SelfDealsFail(c: Config, m: Market, start: map<Account, nat>, provider: Account,
                                         registered: bool, offers: Offers)
    requires Inv(m, start) && Validated(c, m, provider, registered, offers) && BlocksFit(c, m, offers)
    requires !SelfAffordable(m, provider, offers)
    ensures ValidateDeals(c, m, provider, offers).Ok?
    ensures PublishStorageDeals(c, m, provider, registered, offers) == Err(Underflow)
  {
    ValidateExact(c, m, provider, offers);
    PublishKeeps(c, m, start, provider, registered, offers);
  }
}
