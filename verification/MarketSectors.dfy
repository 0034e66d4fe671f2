/** What a call that activates several sectors does: which of them are taken, which deals become active and
    what is listed. */
module MarketSectors {
  import opened Market
  import opened MarketSpec
  import opened MarketActivation

  ghost predicate Apart(a: seq<DealId>, b: seq<DealId>) {
    forall k :: !(k in a && k in b)
  }

  /** Sectors are taken in order: each one whose deals fit and share no deal with a sector taken before. */
  ghost predicate TakenInOrder(ps: Deals, provider: Account, sectors: seq<SectorDeal>, taken: set<nat>) {
    && (forall i :: i in taken ==> i < |sectors|)
    && forall i :: 0 <= i < |sectors| ==>
         (i in taken <==>
          Fits(ps, provider, sectors[i])
          && forall j :: j in taken && j < i ==> Apart(sectors[j].deals, sectors[i].deals))
  }

  /** Exactly the deals of the sectors taken have become active, each in its sector. */
  ghost predicate ActiveNow(m: Market, m': Market, sectors: seq<SectorDeal>, taken: set<nat>)
    requires forall i :: i in taken ==> i < |sectors|
  {
    && m' == m.(proposals := m'.proposals, pending := m'.pending, history := m'.history, sectorDeals := m'.sectorDeals)
    && m'.proposals.Keys == m.proposals.Keys
    && (forall k, i :: k in m.proposals && i in taken && k in sectors[i].deals ==>
          m'.proposals[k] == Activated(m.proposals[k], sectors[i].sector, m.now))
    && (forall k :: k in m.proposals && (forall i :: i in taken ==> k !in sectors[i].deals) ==>
          m'.proposals[k] == m.proposals[k])
  }

  ghost predicate LastTaken(sectors: seq<SectorDeal>, taken: set<nat>, i: nat)
    requires forall j :: j in taken ==> j < |sectors|
  {
    i in taken && forall j :: j in taken && j > i ==> sectors[j].sector != sectors[i].sector
  }

  ghost predicate SectorTaken(sectors: seq<SectorDeal>, taken: set<nat>, sector: nat)
    requires forall j :: j in taken ==> j < |sectors|
  {
    exists i :: i in taken && sectors[i].sector == sector
  }

  /** A sector taken is listed with the deals of the last entry taken for it; no other listing has changed. */
  ghost predicate ListedNow(listed: Sectors, listed': Sectors, provider: Account, sectors: seq<SectorDeal>,
                            taken: set<nat>)
    requires forall i :: i in taken ==> i < |sectors|
  {
    && (forall i: nat :: LastTaken(sectors, taken, i) ==>
          Listing(listed', (provider, sectors[i].sector)) == [sectors[i].deals])
    && (forall p: (Account, nat) :: !(p.0 == provider && SectorTaken(sectors, taken, p.1)) ==>
          Listing(listed', p) == Listing(listed, p))
  }

  /** The listing of a sector, if there is one. */
  ghost function Listing(listed: Sectors, p: (Account, nat)): seq<seq<DealId>> {
    if p in listed then [listed[p]] else []
  }

  // ---------- one more sector ----------

  /** A sector's deals fit later exactly when they fitted before and none has become active meanwhile. */
  lemma {:induction false} FitsAfter(m: Market, m1: Market, provider: Account, sectors: seq<SectorDeal>,
                                     taken: set<nat>, s: SectorDeal)
    requires (forall i :: i in taken ==> i < |sectors|) && ActiveNow(m, m1, sectors, taken)
    ensures Fits(m1.proposals, provider, s) <==>
            Fits(m.proposals, provider, s) && forall j :: j in taken ==> Apart(sectors[j].deals, s.deals)
  {
    if forall i :: 0 <= i < |s.deals| ==> s.deals[i] in m.proposals {
      SameSizes(m, m1, sectors, taken, s.deals);
    }
    if Fits(m1.proposals, provider, s) {
      forall j | j in taken ensures Apart(sectors[j].deals, s.deals) {
        forall k ensures !(k in sectors[j].deals && k in s.deals) {
          if k in s.deals { var i :| 0 <= i < |s.deals| && s.deals[i] == k; }
        }
      }
      forall i | 0 <= i < |s.deals| ensures m1.proposals[s.deals[i]] == m.proposals[s.deals[i]] {
        assert forall j :: j in taken ==> s.deals[i] !in sectors[j].deals;
      }
    }
    if Fits(m.proposals, provider, s) && forall j :: j in taken ==> Apart(sectors[j].deals, s.deals) {
      forall i | 0 <= i < |s.deals| ensures m1.proposals[s.deals[i]] == m.proposals[s.deals[i]] {
        assert forall j :: j in taken ==> s.deals[i] !in sectors[j].deals;
      }
    }
  }

  lemma {:induction false} SameSizes(m: Market, m1: Market, sectors: seq<SectorDeal>, taken: set<nat>,
                                     ids: seq<DealId>)
    requires (forall i :: i in taken ==> i < |sectors|) && ActiveNow(m, m1, sectors, taken)
    requires forall i :: 0 <= i < |ids| ==> ids[i] in m.proposals
    ensures PieceSizes(m1.proposals, ids) == PieceSizes(m.proposals, ids)
  {
    forall i | 0 <= i < |ids| ensures m1.proposals[ids[i]].pieceSize == m.proposals[ids[i]].pieceSize {
      if j :| j in taken && ids[i] in sectors[j].deals {
        assert m1.proposals[ids[i]] == Activated(m.proposals[ids[i]], sectors[j].sector, m.now);
      }
    }
  }

  lemma {:induction false} TakenSnoc(ps: Deals, provider: Account, init: seq<SectorDeal>, s: SectorDeal,
                                     taken: set<nat>, take: bool)
    requires TakenInOrder(ps, provider, init, taken)
    requires take <==> Fits(ps, provider, s) && forall j :: j in taken ==> Apart(init[j].deals, s.deals)
    ensures TakenInOrder(ps, provider, init + [s], if take then taken + {|init|} else taken)
  {
    var sectors, taken' := init + [s], if take then taken + {|init|} else taken;
    assert forall j :: j in taken ==> sectors[j] == init[j];
    forall i | 0 <= i < |sectors|
      ensures i in taken' <==>
              Fits(ps, provider, sectors[i])
              && forall j :: j in taken' && j < i ==> Apart(sectors[j].deals, sectors[i].deals)
    {
      if i < |init| { assert sectors[i] == init[i]; }
    }
  }

  lemma {:induction false} ActiveSnoc(m: Market, m1: Market, m2: Market, init: seq<SectorDeal>, s: SectorDeal,
                                      taken: set<nat>)
    requires (forall i :: i in taken ==> i < |init|) && ActiveNow(m, m1, init, taken)
    requires ActivatedAll(m1, m2, s.sector, s.deals) && forall j :: j in taken ==> Apart(init[j].deals, s.deals)
    ensures ActiveNow(m, m2, init + [s], taken + {|init|})
  {
    var sectors, taken' := init + [s], taken + {|init|};
    assert forall j :: j in taken ==> sectors[j] == init[j];
    forall k | k in m.proposals && k in s.deals ensures m1.proposals[k] == m.proposals[k] {
      assert forall j :: j in taken ==> k !in init[j].deals;
    }
    forall k | k in m.proposals && (forall i :: i in taken' ==> k !in sectors[i].deals)
      ensures m2.proposals[k] == m.proposals[k]
    {
      assert k !in sectors[|init|].deals;
      assert forall j :: j in taken ==> k !in init[j].deals;
    }
  }

  lemma {:induction false} ListedSnoc(listed: Sectors, listed1: Sectors, listed2: Sectors, provider: Account,
                                      init: seq<SectorDeal>, s: SectorDeal, taken: set<nat>)
    requires (forall i :: i in taken ==> i < |init|) && ListedNow(listed, listed1, provider, init, taken)
    requires listed2 == listed1[(provider, s.sector) := s.deals]
    ensures ListedNow(listed, listed2, provider, init + [s], taken + {|init|})
  {
    var sectors, taken' := init + [s], taken + {|init|};
    assert forall j :: j in taken ==> sectors[j] == init[j];
    forall i: nat | LastTaken(sectors, taken', i)
      ensures Listing(listed2, (provider, sectors[i].sector)) == [sectors[i].deals]
    {
      if i < |init| {
        assert |init| in taken' && sectors[|init|].sector != sectors[i].sector;
        assert LastTaken(init, taken, i);
      }
    }
    forall p: (Account, nat) | !(p.0 == provider && SectorTaken(sectors, taken', p.1))
      ensures Listing(listed2, p) == Listing(listed, p)
    {
      assert |init| in taken' && sectors[|init|] == s;
      if i :| i in taken && init[i].sector == p.1 { assert i in taken' && sectors[i].sector == p.1; }
    }
  }

  /** A call activates, in order, each sector whose deals fit and are not those of a sector taken before. */
  lemma {:induction false} ActivateAllEffect(m: Market, start: map<Account, nat>, pending: set<Deal>,
                                             provider: Account, sectors: seq<SectorDeal>, m': Market)
      returns (taken: set<nat>)
    requires Inv(m, start) && m.pending <= pending && m' == ActivateAll(m, pending, provider, sectors)
    ensures TakenInOrder(m.proposals, provider, sectors, taken)
    ensures ActiveNow(m, m', sectors, taken) && ListedNow(m.sectorDeals, m'.sectorDeals, provider, sectors, taken)
    ensures Inv(m', start) && m'.pending <= pending
  {
    taken := {};
    if sectors != [] {
      var init, s := sectors[..|sectors| - 1], sectors[|sectors| - 1];
      assert sectors == init + [s];
      var m1 := ActivateAll(m, pending, provider, init);
      taken := ActivateAllEffect(m, start, pending, provider, init, m1);
      taken := ActivateNext(m, m1, start, pending, provider, init, s, taken, m');
    }
  }

  lemma {:induction false} ActivateNext(m: Market, m1: Market, start: map<Account, nat>, pending: set<Deal>,
                                        provider: Account, init: seq<SectorDeal>, s: SectorDeal, before: set<nat>,
                                        m': Market)
      returns (taken: set<nat>)
    requires Inv(m1, start) && m1.pending <= pending && m' == ActivateSector(m1, pending, provider, s)
    requires TakenInOrder(m.proposals, provider, init, before)
    requires ActiveNow(m, m1, init, before) && ListedNow(m.sectorDeals, m1.sectorDeals, provider, init, before)
    ensures TakenInOrder(m.proposals, provider, init + [s], taken)
    ensures ActiveNow(m, m', init + [s], taken) && ListedNow(m.sectorDeals, m'.sectorDeals, provider, init + [s], taken)
    ensures Inv(m', start) && m'.pending <= pending
  {
    SectorValidExact(m1, start, pending, provider, s);
    FitsAfter(m, m1, provider, init, before, s);
    ActivateSectorKeeps(m1, start, pending, provider, s);
    var take := Fits(m1.proposals, provider, s);
    TakenSnoc(m.proposals, provider, init, s, before, take);
    taken := if take then before + {|init|} else before;
    if take {
      ActiveSnoc(m, m1, m', init, s, before);
      ListedSnoc(m.sectorDeals, m1.sectorDeals, m'.sectorDeals, provider, init, s, before);
    } else {
      NoneTaken(m, m1, provider, init, s, before);
    }
  }

  lemma {:induction false} NoneTaken(m: Market, m1: Market, provider: Account, init: seq<SectorDeal>, s: SectorDeal,
                                     taken: set<nat>)
    requires (forall i :: i in taken ==> i < |init|)
    requires ActiveNow(m, m1, init, taken) && ListedNow(m.sectorDeals, m1.sectorDeals, provider, init, taken)
    ensures ActiveNow(m, m1, init + [s], taken) && ListedNow(m.sectorDeals, m1.sectorDeals, provider, init + [s], taken)
  {
    var sectors := init + [s];
    assert forall j :: j in taken ==> sectors[j] == init[j];
    assert forall i: nat :: LastTaken(sectors, taken, i) ==> LastTaken(init, taken, i);
    assert forall x: nat :: SectorTaken(sectors, taken, x) <==> SectorTaken(init, taken, x);
  }

  /** The whole call, which judges every sector by the pending index as it found it. */
  lemma {:induction false} ActivateEffect(m: Market, start: map<Account, nat>, provider: Account,
                                          sectors: seq<SectorDeal>, m': Market)
      returns (taken: set<nat>)
    requires Inv(m, start) && m' == ActivateDeals(m, provider, sectors)
    ensures TakenInOrder(m.proposals, provider, sectors, taken)
    ensures ActiveNow(m, m', sectors, taken) && ListedNow(m.sectorDeals, m'.sectorDeals, provider, sectors, taken)
  {
    taken := ActivateAllEffect(m, start, m.pending, provider, sectors, m');
  }
}
