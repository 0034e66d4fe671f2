/** Sums over the market's accounts and over the shares of its deals in an account's locked funds. */
module MarketLedger {
  import opened Arith
  import opened Market

  // ---------- sums over accounts ----------

  ghost function Sum(m: map<nat, nat>): nat
    decreases m.Keys
  {
    if m == map[] then 0 else
    var a := Least(m.Keys);
    assert (m - {a}).Keys == m.Keys - {a};
    m[a] + Sum(m - {a})
  }

  lemma {:induction false} SumRemove(m: map<nat, nat>, a: nat)
    requires a in m
    ensures Sum(m) == m[a] + Sum(m - {a})
    decreases m.Keys
  {
    var l := Least(m.Keys);
    assert (m - {l}).Keys == m.Keys - {l};
    if a != l {
      SumRemove(m - {l}, a);
      assert (m - {a}).Keys == m.Keys - {a};
      LeastIs((m - {a}).Keys, l);
      assert m - {l} - {a} == m - {a} - {l};
    }
  }

  function At(m: map<nat, nat>, a: nat): nat {
    if a in m then m[a] else 0
  }

  lemma {:induction false} SumUpdate(m: map<nat, nat>, a: nat, v: nat)
    ensures Sum(m[a := v]) == Sum(m) - At(m, a) + v
  {
    SumRemove(m[a := v], a);
    if a in m {
      SumRemove(m, a);
      assert m[a := v] - {a} == m - {a};
    } else {
      assert m[a := v] - {a} == m;
    }
  }

  lemma {:induction false} SumCovers(m: map<nat, nat>, a: nat)
    ensures At(m, a) <= Sum(m)
  {
    if a in m { SumRemove(m, a); }
  }

  /** Free and locked funds of all accounts. */
  ghost function Total(b: Balances): nat {
    Sum(Worth(b))
  }

  ghost function Worth(b: Balances): map<nat, nat> {
    map a | a in b :: b[a].free + b[a].locked
  }

  lemma {:induction false} TotalUpdate(b: Balances, a: Account, e: Entry)
    ensures Total(b[a := e]) == Total(b) - Get(b, a).free - Get(b, a).locked + e.free + e.locked
  {
    assert Worth(b[a := e]) == Worth(b)[a := e.free + e.locked];
    SumUpdate(Worth(b), a, e.free + e.locked);
  }

  lemma {:induction false} TotalCovers(b: Balances, a: Account)
    ensures Get(b, a).free + Get(b, a).locked <= Total(b)
  {
    SumCovers(Worth(b), a);
  }

  // ---------- the balance operations ----------

  /** Account a's entry moved by the given amounts and no other entry changed. */
  ghost predicate Moved(b: Balances, b': Balances, a: Account, free: int, locked: int) {
    forall x :: && Get(b', x).free == Get(b, x).free + (if x == a then free else 0)
                && Get(b', x).locked == Get(b, x).locked + (if x == a then locked else 0)
  }

  lemma {:induction false} LockEffect(b: Balances, a: Account, amount: nat)
    requires Total(b) <= MAX_BALANCE
    ensures LockFunds(b, a, amount).Ok? <==> amount <= Get(b, a).free
    ensures LockFunds(b, a, amount).Ok? ==>
              Moved(b, LockFunds(b, a, amount).value, a, 0 - amount, amount)
                  && Total(LockFunds(b, a, amount).value) == Total(b)
  {
    TotalCovers(b, a);
    var e := Get(b, a);
    if amount <= e.free { TotalUpdate(b, a, Entry(e.free - amount, e.locked + amount)); }
  }

  lemma {:induction false} UnlockEffect(b: Balances, a: Account, amount: nat)
    requires Total(b) <= MAX_BALANCE
    ensures UnlockFunds(b, a, amount).Ok? <==> amount <= Get(b, a).locked
    ensures UnlockFunds(b, a, amount).Ok? ==>
              Moved(b, UnlockFunds(b, a, amount).value, a, amount, 0 - amount)
                  && Total(UnlockFunds(b, a, amount).value) == Total(b)
  {
    TotalCovers(b, a);
    var e := Get(b, a);
    if amount <= e.locked { TotalUpdate(b, a, Entry(e.free + amount, e.locked - amount)); }
  }

  lemma {:induction false} DebitEffect(b: Balances, a: Account, amount: nat)
    ensures Debit(b, a, amount).Ok? <==> amount <= Get(b, a).locked
    ensures Debit(b, a, amount).Ok? ==>
              Moved(b, Debit(b, a, amount).value, a, 0, 0 - amount)
                  && Total(Debit(b, a, amount).value) == Total(b) - amount
  {
    var e := Get(b, a);
    if amount <= e.locked { TotalUpdate(b, a, Entry(e.free, e.locked - amount)); }
  }

  lemma {:induction false} CreditEffect(b: Balances, a: Account, amount: nat)
    requires Total(b) + amount <= MAX_BALANCE
    ensures Credit(b, a, amount).Ok?
    ensures Moved(b, Credit(b, a, amount).value, a, amount, 0) && Total(Credit(b, a, amount).value) == Total(b) + amount
  {
    TotalCovers(b, a);
    var e := Get(b, a);
    TotalUpdate(b, a, Entry(e.free + amount, e.locked));
  }

  lemma {:induction false} WithdrawEffect(b: Balances, a: Account, amount: nat)
    requires amount <= Get(b, a).free
    ensures var b' := b[a := Entry(Get(b, a).free - amount, Get(b, a).locked)];
            Moved(b, b', a, 0 - amount, 0) && Total(b') == Total(b) - amount
  {
    TotalUpdate(b, a, Entry(Get(b, a).free - amount, Get(b, a).locked));
  }

  /** A payment succeeds exactly when the client has the amount locked; no balance is created or lost. */
  lemma {:induction false} PaymentEffect(b: Balances, client: Account, provider: Account, amount: nat)
    requires Total(b) <= MAX_BALANCE
    ensures PerformStoragePayment(b, client, provider, amount).Ok? <==> amount <= Get(b, client).locked
    ensures PerformStoragePayment(b, client, provider, amount).Ok? ==>
              var b' := PerformStoragePayment(b, client, provider, amount).value;
              && Total(b') == Total(b)
              && forall x :: && Get(b', x).free == Get(b, x).free + (if x == provider then amount else 0)
                             && Get(b', x).locked == Get(b, x).locked - (if x == client then amount else 0)
  {
    DebitEffect(b, client, amount);
    if amount <= Get(b, client).locked { CreditEffect(Debit(b, client, amount).value, provider, amount); }
  }

  /** A slash succeeds exactly when the amount is locked; it leaves the account, the market account and the
      issuance, and nothing else changes. */
  lemma {:induction false} SlashEffect(m: Market, a: Account, amount: nat)
    requires m.pot == Total(m.balances)
    ensures SlashAndBurn(m, a, amount).Ok? <==> amount <= Get(m.balances, a).locked
    ensures SlashAndBurn(m, a, amount).Ok? ==>
              var m' := SlashAndBurn(m, a, amount).value;
              && Moved(m.balances, m'.balances, a, 0, 0 - amount) && m'.pot == Total(m'.balances) == m.pot - amount
              && m'.issuance == m.issuance - amount
              && m' == m.(balances := m'.balances, pot := m'.pot, issuance := m'.issuance)
  {
    DebitEffect(m.balances, a, amount);
    TotalCovers(m.balances, a);
  }

  // ---------- the shares of deals ----------

  /** The part of an account's locked funds that a deal accounts for. */
  ghost function Share(d: Deal, a: Account): int {
    (if d.client == a then d.Unpaid() else 0) + (if d.provider == a then d.collateral else 0)
  }

  ghost function ShareAt(ps: map<DealId, Deal>, id: DealId, a: Account): int {
    if id in ps then Share(ps[id], a) else 0
  }

  /** The shares of all deals with identifiers below n. */
  ghost function Backing(ps: map<DealId, Deal>, a: Account, n: nat): int {
    if n == 0 then 0 else Backing(ps, a, n - 1) + ShareAt(ps, n - 1, a)
  }

  /** Changing one deal changes the backing by the change of its share. */
  lemma {:induction false} BackingChange(ps: map<DealId, Deal>, ps': map<DealId, Deal>, id: DealId, a: Account, n: nat)
    requires forall k :: k != id ==> ShareAt(ps', k, a) == ShareAt(ps, k, a)
    ensures Backing(ps', a, n) == Backing(ps, a, n) + (if id < n then ShareAt(ps', id, a) - ShareAt(ps, id, a) else 0)
  {
    if n > 0 { BackingChange(ps, ps', id, a, n - 1); }
  }

  ghost predicate NonNegative(ps: map<DealId, Deal>) {
    forall id :: id in ps ==> ps[id].Unpaid() >= 0
  }

  lemma {:induction false} BackingCovers(ps: map<DealId, Deal>, a: Account, n: nat, id: DealId)
    requires NonNegative(ps)
    ensures 0 <= Backing(ps, a, n) && (id < n ==> ShareAt(ps, id, a) <= Backing(ps, a, n))
  {
    if n > 0 {
      BackingCovers(ps, a, n - 1, id);
      assert n - 1 in ps ==> ps[n - 1].Unpaid() >= 0;
    }
  }

  /** Linear prices split at any block in between. */
  lemma {:induction false} PriceSplit(price: nat, a: nat, b: nat, c: nat)
    requires a <= b <= c
    ensures price * (b - a) >= 0 && price * (c - b) >= 0 && price * (c - a) == price * (b - a) + price * (c - b)
  {
  }
}
