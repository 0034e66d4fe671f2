/** Activating deals keeps the invariant, sector by sector. */
module MarketActivation {
  import opened Results
  import opened Market
  import opened MarketLedger
  import opened MarketSpec
  import opened MarketParts

  lemma {:induction false} ActivateBacked(b: Balances, ps: Deals, next: DealId, id: DealId, d': Deal)
    requires Backed(b, ps, next) && id in ps && id < next
    requires forall a :: Share(d', a) == Share(ps[id], a)
    ensures Backed(b, ps[id := d'], next)
  {
    BackedChange(b, b, ps, ps[id := d'], next, id);
  }

  ghost function Activated(d: Deal, sector: nat, now: nat): Deal {
    d.(state := Active(sector, now, None))
  }

  lemma {:induction false} ActivateOneKeeps(m: Market, start: map<Account, nat>, sector: nat, id: DealId)
    requires Inv(m, start) && PublishedAt(m.proposals, id)
    ensures Inv(ActivateOne(m, sector, id), start)
  {
    var ps, d, d', m' := m.proposals, m.proposals[id], Activated(m.proposals[id], sector, m.now),
        ActivateOne(m, sector, id);
    assert DealSane(d, m.now) && DealSane(d', m.now);
    PendingReplace(ps, m.pending, id, d');
    ScheduledChange(ps, m'.proposals, m.nextDealId, m.dealsForBlock, id);
    SectorsChange(ps, m'.proposals, m.nextDealId, m.sectorDeals, id);
    ActivateBacked(m.balances, ps, m.nextDealId, id, d');
    assert Accounted(ps, m.now, m.history, id);
    FairChange(m.balances, m.balances, m.wallets, m.history, m'.history, m.nextDealId, start, id);
    AccountedChange(ps, m'.proposals, m.nextDealId, m.now, m.history, m'.history, id);
    BurnedChange(m.history, m'.history, id, m.nextDealId);
  }

  ghost predicate AllPublished(m: Market, ids: seq<DealId>) {
    forall i :: 0 <= i < |ids| ==> PublishedAt(m.proposals, ids[i])
  }

  /** Exactly the deals in ids have become active in the sector. */
  ghost predicate ActivatedAll(m: Market, m': Market, sector: nat, ids: seq<DealId>) {
    && m' == m.(proposals := m'.proposals, pending := m'.pending, history := m'.history, sectorDeals := m'.sectorDeals)
    && m'.pending <= m.pending
    && m'.proposals.Keys == m.proposals.Keys
    && forall k :: k in m.proposals ==>
         m'.proposals[k] == if k in ids then Activated(m.proposals[k], sector, m.now) else m.proposals[k]
  }

  lemma {:induction false} ActivatedSnoc(m: Market, m1: Market, m2: Market, sector: nat, ids: seq<DealId>)
    requires ids != [] && Distinct(ids) && ids[|ids| - 1] in m1.proposals
    requires ActivatedAll(m, m1, sector, ids[..|ids| - 1]) && m2 == ActivateOne(m1, sector, ids[|ids| - 1])
    ensures ActivatedAll(m, m2, sector, ids) && m2.sectorDeals == m1.sectorDeals
  {
    var init, last := ids[..|ids| - 1], ids[|ids| - 1];
    assert last !in init;
    assert forall k :: k in ids <==> k in init || k == last;
  }

  lemma {:induction false} ActivateEachKeeps(m: Market, start: map<Account, nat>, sector: nat, ids: seq<DealId>)
    requires Inv(m, start) && Distinct(ids) && AllPublished(m, ids)
    ensures Inv(ActivateEach(m, sector, ids), start)
    ensures ActivatedAll(m, ActivateEach(m, sector, ids), sector, ids)
    ensures ActivateEach(m, sector, ids).sectorDeals == m.sectorDeals
  {
    if ids != [] {
      var init, last := ids[..|ids| - 1], ids[|ids| - 1];
      ActivateEachKeeps(m, start, sector, init);
      var m1 := ActivateEach(m, sector, init);
      assert last !in init && PublishedAt(m.proposals, last);
      assert PublishedAt(m1.proposals, last);
      ActivateOneKeeps(m1, start, sector, last);
      ActivatedSnoc(m, m1, ActivateOne(m1, sector, last), sector, ids);
    }
  }

  lemma {:induction false} ListSectorKeeps(m: Market, start: map<Account, nat>, provider: Account, sector: nat,
                                           ids: seq<DealId>)
    requires Inv(m, start) && Distinct(ids)
    requires forall i :: 0 <= i < |ids| ==> ids[i] in m.proposals && ActiveIn(m.proposals[ids[i]], provider, sector)
    ensures Inv(m.(sectorDeals := m.sectorDeals[(provider, sector) := ids]), start)
  {
    var sectors := m.sectorDeals[(provider, sector) := ids];
    forall p: Account, s: nat, id: DealId | Lists(sectors, p, s, id)
      ensures id < m.nextDealId && (id in m.proposals ==> ActiveIn(m.proposals[id], p, s))
    {
      if (p, s) == (provider, sector) {
        var i :| 0 <= i < |ids| && ids[i] == id;
        assert DealSane(m.proposals[id], m.now);
      } else {
        assert Lists(m.sectorDeals, p, s, id);
      }
    }
  }

  /** A sector's deals are activated and listed together, or nothing happens; no account is touched. */
  lemma {:induction false} ActivateSectorKeeps(m: Market, start: map<Account, nat>, pending: set<Deal>,
                                               provider: Account, s: SectorDeal)
    requires Inv(m, start)
    ensures Inv(ActivateSector(m, pending, provider, s), start)
    ensures SectorValid(m, pending, provider, s) ==>
              && ActivatedAll(m, ActivateSector(m, pending, provider, s), s.sector, s.deals)
              && ActivateSector(m, pending, provider, s).sectorDeals == m.sectorDeals[(provider, s.sector) := s.deals]
    ensures !SectorValid(m, pending, provider, s) ==> ActivateSector(m, pending, provider, s) == m
    ensures ActivateSector(m, pending, provider, s).pending <= m.pending
  {
    if SectorValid(m, pending, provider, s) {
      forall i | 0 <= i < |s.deals|
          ensures PublishedAt(m.proposals, s.deals[i]) && m.proposals[s.deals[i]].provider == provider {
        assert CanActivate(m, pending, provider, s.expiry, s.deals[i]).Ok?;
      }
      ActivateEachKeeps(m, start, s.sector, s.deals);
      ListSectorKeeps(ActivateEach(m, s.sector, s.deals), start, provider, s.sector, s.deals);
    }
  }

  lemma {:induction false} ActivateAllKeeps(m: Market, start: map<Account, nat>, pending: set<Deal>, provider: Account,
                                            sectors: seq<SectorDeal>)
    requires Inv(m, start) && m.pending <= pending
    ensures Inv(ActivateAll(m, pending, provider, sectors), start)
    ensures ActivateAll(m, pending, provider, sectors).pending <= pending
  {
    if sectors != [] {
      var init := sectors[..|sectors| - 1];
      ActivateAllKeeps(m, start, pending, provider, init);
      ActivateSectorKeeps(ActivateAll(m, pending, provider, init), start, pending, provider, sectors[|sectors| - 1]);
    }
  }

  lemma {:induction false} ActivateKeeps(m: Market, start: map<Account, nat>, provider: Account,
                                         sectors: seq<SectorDeal>)
    requires Inv(m, start)
    ensures Inv(ActivateDeals(m, provider, sectors), start)
  {
    ActivateAllKeeps(m, start, m.pending, provider, sectors);
  }

  /** The check of the pending index repeats the check of the deal's state. */
  lemma {:induction false} AlwaysPending(m: Market, start: map<Account, nat>, pending: set<Deal>, provider: Account,
                                         expiry: nat, id: DealId)
    requires Inv(m, start) && m.pending <= pending && id in m.proposals
    ensures CanActivate(m, pending, provider, expiry, id) != Err(DealNotPending)
    ensures CanActivate(m, pending, provider, expiry, id) != Err(StartBlockElapsed)
  {
    if m.proposals[id].state == Published {
      assert PublishedAt(m.proposals, id) && PublishedDeal(m.proposals, m.proposals[id])
          && DealSane(m.proposals[id], m.now);
    }
  }

  // ---------- which sectors are activated ----------

  ghost function SizeSum(sizes: seq<nat>): nat {
    if sizes == [] then 0 else sizes[0] + SizeSum(sizes[1..])
  }

  lemma {:induction false} SizeSumAdds(a: seq<nat>, b: seq<nat>)
    ensures SizeSum(a + b) == SizeSum(a) + SizeSum(b)
  {
    if a == [] {
      assert a + b == b;
    } else {
      SizeSumAdds(a[1..], b);
      assert (a + b)[1..] == a[1..] + b;
    }
  }

  ghost function PieceSizes(ps: Deals, ids: seq<DealId>): (sizes: seq<nat>)
    requires forall i :: 0 <= i < |ids| ==> ids[i] in ps
    ensures |sizes| == |ids| && forall i :: 0 <= i < |ids| ==> sizes[i] == ps[ids[i]].pieceSize
  {
    seq(|ids|, i requires 0 <= i < |ids| => ps[ids[i]].pieceSize)
  }

  lemma {:induction false} SpaceIsSum(m: Market, ids: seq<DealId>)
    requires forall i :: 0 <= i < |ids| ==> ids[i] in m.proposals
    ensures DealSpace(m, ids) == SizeSum(PieceSizes(m.proposals, ids))
  {
    if ids != [] {
      var init, last := ids[..|ids| - 1], ids[|ids| - 1];
      SpaceIsSum(m, init);
      var size := m.proposals[last].pieceSize;
      assert PieceSizes(m.proposals, ids) == PieceSizes(m.proposals, init) + [size];
      SizeSumAdds(PieceSizes(m.proposals, init), [size]);
      assert SizeSum([size]) == size + SizeSum([size][1..]);
    }
  }

  /** The deals of the sector are different deals of the provider, published, over by the sector's expiry, and
      their pieces fit into the sector together. */
  ghost predicate Fits(ps: Deals, provider: Account, s: SectorDeal) {
    && (forall i, j :: 0 <= i < j < |s.deals| ==> s.deals[i] != s.deals[j])
    && (forall i :: 0 <= i < |s.deals| ==>
          && s.deals[i] in ps && ps[s.deals[i]].provider == provider && ps[s.deals[i]].state == Published
          && ps[s.deals[i]].end <= s.expiry)
    && SizeSum(PieceSizes(ps, s.deals)) <= s.size
  }

  /** A sector is valid exactly when its deals fit; the checks of the pending index and of the start block add
      nothing. */
  lemma {:induction false} SectorValidExact(m: Market, start: map<Account, nat>, pending: set<Deal>,
                                            provider: Account, s: SectorDeal)
    requires Inv(m, start) && m.pending <= pending
    ensures SectorValid(m, pending, provider, s) <==> Fits(m.proposals, provider, s)
  {
    if forall i :: 0 <= i < |s.deals| ==> s.deals[i] in m.proposals {
      SpaceIsSum(m, s.deals);
      forall i | 0 <= i < |s.deals|
        ensures CanActivate(m, pending, provider, s.expiry, s.deals[i]).Ok? <==>
                var d := m.proposals[s.deals[i]];
                d.provider == provider && d.state == Published && d.end <= s.expiry
      {
        AlwaysPending(m, start, pending, provider, s.expiry, s.deals[i]);
      }
    }
  }
}
