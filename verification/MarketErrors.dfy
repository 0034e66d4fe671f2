/** What a refused publication reports. */
module MarketErrors {
  import opened Results
  import opened Market
  import opened MarketLedger
  import opened MarketSpec
  import opened MarketPublish

  /** Why an amount cannot be locked: it is no balance at all, or more than there is. */
  ghost function Shortage(amount: int): Error {
    if amount > MAX_BALANCE then Overflow else InsufficientFreeFunds
  }

  /** What is wrong with a deal that cannot be accepted after the ones before it: the deal itself, then the funds
      of its client or of the provider, then a duplicate, then the number of pending deals. */
  ghost function Complaint(c: Config, m: Market, provider: Account, init: Offers, o: ClientDeal): Error {
    var sane := SanityCheck(c, o, provider, m.now);
    if sane.Err? then sane.error
    else if FeesOf(init, o.deal.client) + o.deal.Fee() > Get(m.balances, o.deal.client).free
      then Shortage(FeesOf(init, o.deal.client) + o.deal.Fee())
    else if CollateralOf(init) + o.deal.collateral > Get(m.balances, provider).free
      then Shortage(CollateralOf(init) + o.deal.collateral)
    else if o.deal in m.pending + DealsOf(init) then DuplicateDeal
    else TooManyPendingDeals
  }

  lemma {:induction false} ValidateOneError(c: Config, m: Market, provider: Account, init: Offers, o: ClientDeal,
                                            k: Checked)
    requires Total(m.balances) <= MAX_BALANCE && Tallied(m, init, k) && !NextAcceptable(c, m, provider, init, o)
    ensures ValidateOne(c, m, provider, o, k) == Err(Complaint(c, m, provider, init, o))
  {
    SanityExact(c, o, provider, m.now);
    TotalCovers(m.balances, o.deal.client);
    TotalCovers(m.balances, o.deal.provider);
  }

  /** The i-th deal is the first that cannot be accepted. */
  ghost predicate FailsAt(c: Config, m: Market, provider: Account, offers: Offers, i: nat) {
    && i < |offers| && Acceptable(c, m, provider, offers[..i])
    && !NextAcceptable(c, m, provider, offers[..i], offers[i])
  }

  /** Validation reports what is wrong with the first deal that cannot be accepted. */
  lemma {:induction false} ValidateError(c: Config, m: Market, provider: Account, offers: Offers) returns (i: nat)
    requires Total(m.balances) <= MAX_BALANCE && !Acceptable(c, m, provider, offers)
    ensures FailsAt(c, m, provider, offers, i)
    ensures ValidateAll(c, m, provider, offers) == Err(Complaint(c, m, provider, offers[..i], offers[i]))
  {
    i := 0;
    if offers == [] {
      ValidateExact(c, m, provider, offers);
    } else {
      var init, o := offers[..|offers| - 1], offers[|offers| - 1];
      ValidateExact(c, m, provider, init);
      if Acceptable(c, m, provider, init) {
        i := |offers| - 1;
        AcceptableSnoc(c, m, provider, offers);
        ValidateOneError(c, m, provider, init, o, ValidateAll(c, m, provider, init).value);
      } else {
        i := ValidateError(c, m, provider, init);
        FailsBefore(c, m, provider, offers, i);
      }
    }
  }

  lemma {:induction false} FailsBefore(c: Config, m: Market, provider: Account, offers: Offers, i: nat)
    requires offers != [] && FailsAt(c, m, provider, offers[..|offers| - 1], i)
    ensures FailsAt(c, m, provider, offers, i)
    ensures offers[..|offers| - 1][..i] == offers[..i] && offers[..|offers| - 1][i] == offers[i]
  {
    assert offers[..|offers| - 1][..i] == offers[..i];
  }

  /** A publication that is not validated is refused, by the first of these reasons. */
  lemma {:induction false} PublishError(c: Config, m: Market, start: map<Account, nat>, caller: Account,
                                        registered: bool, offers: Offers)
      returns (i: nat)
    requires Inv(m, start) && !Validated(c, m, caller, registered, offers)
    ensures var r := PublishStorageDeals(c, m, caller, registered, offers);
            && r.Err?
            && (!registered ==> r.error == StorageProviderNotRegistered)
            && (registered && offers == [] ==> r.error == NoProposalsToBePublished)
            && (registered && offers != [] && offers[0].deal.provider != caller ==>
                  r.error == PublishedByIncorrectStorageProvider)
            && (registered && offers != [] && offers[0].deal.provider == caller ==>
                  FailsAt(c, m, caller, offers, i) && r.error == Complaint(c, m, caller, offers[..i], offers[i]))
  {
    i := 0;
    if registered && offers != [] && offers[0].deal.provider == caller {
      i := ValidateError(c, m, caller, offers);
    }
  }
}
