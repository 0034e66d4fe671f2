/** Facts about natural numbers: products, quotients, remainders and least elements. */
module Arith {

  lemma {:induction false} MulOrder(k: int, q: int, s: nat)
    ensures k <= q ==> k * s <= q * s
    ensures k > q ==> k * s >= (q + 1) * s == q * s + s
  {
    Distribute(q, 1, s);
    if k <= q { Distribute(k, q - k, s); } else { Distribute(q + 1, k - q - 1, s); }
  }

  lemma {:induction false} Distribute(x: int, d: nat, s: nat)
    ensures (x + d) * s == x * s + d * s && d * s >= 0
  {
  }

  lemma {:induction false} Euclid(x: nat, m: nat) returns (k: nat, r: nat)
    requires m > 0
    ensures k == x / m && r == x % m && r < m && x == k * m + r
  {
    k, r := x / m, x % m;
  }

  /** Quotient and remainder are unique. */
  lemma {:induction false} SameQuotient(k: nat, r: nat, q: nat, t: nat, m: nat)
    requires r < m && t < m && k * m + r == q * m + t
    ensures k == q && r == t
  {
    MulOrder(k, q, m);
    MulOrder(q, k, m);
  }

  lemma {:induction false} DivBy(x: nat, k: nat, m: nat, r: nat)
    requires r < m && x == k * m + r
    ensures x / m == k && x % m == r
  {
    var q, t := Euclid(x, m);
    SameQuotient(k, r, q, t, m);
  }

  lemma {:induction false} DivUnique(k: nat, m: nat, r: nat)
    requires r < m
    ensures (k * m + r) % m == r && (k * m + r) / m == k
  {
    DivBy(k * m + r, k, m, r);
  }

  lemma {:induction false} MultipleMod(k: nat, m: nat)
    requires m > 0
    ensures (k * m) % m == 0 && (k * m) / m == k
  {
    DivBy(k * m, k, m, 0);
  }

  lemma {:induction false} ModTrans(x: nat, t: nat, s: nat)
    requires t > 0 && s > 0 && x % t == 0 && t % s == 0
    ensures x % s == 0 && (x + t) % s == 0
  {
    var a, b := x / t, t / s;
    assert x == a * t && t == b * s;
    assert x == (a * b) * s;
    MultipleMod(a * b, s);
    assert x + t == (a * b + b) * s;
    MultipleMod(a * b + b, s);
  }

  lemma {:induction false} SumOfMultiples(x: nat, y: nat, m: nat)
    requires m > 0 && x % m == 0 && y % m == 0
    ensures (x + y) % m == 0
  {
    assert x == (x / m) * m && y == (y / m) * m;
    assert x + y == (x / m + y / m) * m;
    MultipleMod(x / m + y / m, m);
  }

  lemma {:induction false} DifferenceOfMultiples(x: nat, y: nat, m: nat)
    requires m > 0 && x % m == 0 && y % m == 0 && y <= x
    ensures (x - y) % m == 0
  {
    var a, b := x / m, y / m;
    assert x == a * m && y == b * m;
    assert x - y == (a - b) * m;
    MulOrder(b, a, m);
    MultipleMod(a - b, m);
  }

  /** Two multiples of s less than s apart in one direction are ordered. */
  lemma {:induction false} SameGrid(x: nat, y: nat, s: nat)
    requires s > 0 && x % s == 0 && y % s == 0 && y < x + s
    ensures y <= x
  {
    var a, b := x / s, y / s;
    assert x == a * s && y == b * s;
    MulOrder(a, b - 1, s);
  }

  lemma {:induction false} ProductSplit(m: nat, n: nat, i: nat, w: nat)
    ensures (m * n + i) * w == m * (n * w) + i * w
  {
    assert (m * n) * w == m * (n * w);
  }

  lemma {:induction false} NestedQuotient(n: nat, w: nat, t: nat, m: nat, i: nat, r: nat)
    requires i < n && r < w && t == (m * n + i) * w + r
    ensures n * w > 0 && t / (n * w) == m && t % (n * w) == i * w + r
  {
    ProductSplit(m, n, i, w);
    MulOrder(i, n - 1, w);
    MulOrder(n, n - 1, w);
    DivBy(t, m, n * w, i * w + r);
  }

  /** Dividing by a product is dividing twice: the common quotient m and the index i within it. */
  lemma {:induction false} DivTwice(n: nat, w: nat, p: nat, t: nat) returns (m: nat, i: nat)
    requires n > 0 && w > 0 && p == n * w
    ensures p > 0 && t / p == m && (t / w) / n == m && (t % p) / w == i && (t / w) % n == i
  {
    var k, r := Euclid(t, w);
    m, i := Euclid(k, n);
    NestedQuotient(n, w, t, m, i, r);
    DivBy(i * w + r, i, w, r);
  }

  lemma {:induction false} SuccessorQuotient(w: nat, t: nat, j: nat, r: nat)
    requires r < w && t == j * w + r + 1
    ensures t % w == 0 <==> t == j * w + w
    ensures t % w == 0 <==> t >= j * w + w
    ensures t / w == if t == j * w + w then j + 1 else j
    ensures t % w == if t == j * w + w then 0 else r + 1
  {
    MulOrder(j + 1, j, w);
    if r + 1 == w { DivBy(t, j + 1, w, 0); } else { DivBy(t, j, w, r + 1); }
  }

  /** Quotients move by one exactly at the multiples. */
  lemma {:induction false} QuotientStep(w: nat, t: nat)
    requires w > 0 && t > 0
    ensures t % w == 0 <==> t == (t - 1) / w * w + w
    ensures t % w == 0 <==> t >= (t - 1) / w * w + w
    ensures t / w == if t % w == 0 then (t - 1) / w + 1 else (t - 1) / w
  {
    var j, r := Euclid(t - 1, w);
    SuccessorQuotient(w, t, j, r);
  }

  /** The smallest element of a set, the next one an ordered iteration visits. */
  function Least(s: set<nat>): (m: nat)
    requires s != {}
    ensures m in s && forall x :: x in s ==> m <= x
  {
    LeastExists(s);
    var m :| m in s && forall x :: x in s ==> m <= x;
    m
  }

  lemma {:induction false} LeastExists(s: set<nat>)
    requires s != {}
    ensures exists m :: m in s && forall x :: x in s ==> m <= x
  {
    var m := LeastOf(s);
  }

  lemma {:induction false} LeastOf(s: set<nat>) returns (m: nat)
    requires s != {}
    ensures m in s && forall x :: x in s ==> m <= x
  {
    m :| m in s;
    var rest := s - {m};
    if rest != {} {
      var m' := LeastOf(rest);
      assert forall x :: x in s ==> x == m || x in rest;
      if m' < m { m := m'; }
    } else {
      assert forall x :: x in s ==> x == m || x in rest;
    }
  }

  lemma {:induction false} LeastIs(s: set<nat>, m: nat)
    requires m in s && forall x :: x in s ==> m <= x
    ensures Least(s) == m
  {
  }
}
