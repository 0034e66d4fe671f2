/** Bounded popping of early terminations from one partition
    (pallets/storage-provider/src/partition.rs): oldest block first, lowest sectors first. */
module EarlyTerminations {
  import opened Arith

  type Terminations = map<nat, set<nat>>

  function SectorsAt(t: Terminations, b: nat): set<nat> {
    if b in t then t[b] else {}
  }

  /** The n lowest elements of a set. */
  function Lowest(s: set<nat>, n: nat): (r: set<nat>)
    requires n <= |s|
    ensures r <= s && |r| == n
    ensures forall x, y :: x in r && y in s - r ==> x < y
    decreases n
  {
    if n == 0 then {} else
    var m := Least(s);
    var rest := Lowest(s - {m}, n - 1);
    assert forall y :: y in s - ({m} + rest) ==> y in (s - {m}) - rest;
    {m} + rest
  }

  datatype Popped = Popped(taken: Terminations, rest: Terminations, count: nat)

  function Pop(t: Terminations, max: nat): Popped
    decreases t.Keys
  {
    if t == map[] then Popped(map[], map[], 0) else
    var b := Least(t.Keys);
    if |t[b]| > max then
      var part := Lowest(t[b], max);
      Popped(map[b := part], t[b := t[b] - part], max)
    else if |t[b]| == max then Popped(map[b := t[b]], t - {b}, max)
    else
      assert (t - {b}).Keys == t.Keys - {b};
      var more := Pop(t - {b}, max - |t[b]|);
      Popped(more.taken[b := t[b]], more.rest, more.count + |t[b]|)
  }

  /** The number of sectors over all blocks. */
  function Size(t: Terminations): nat
    decreases t.Keys
  {
    if t == map[] then 0 else
    var b := Least(t.Keys);
    assert (t - {b}).Keys == t.Keys - {b};
    |t[b]| + Size(t - {b})
  }

  lemma {:induction false} SizeRemove(t: Terminations, b: nat)
    requires b in t
    ensures Size(t) == |t[b]| + Size(t - {b})
    decreases t.Keys
  {
    var m := Least(t.Keys);
    assert (t - {m}).Keys == t.Keys - {m};
    if b != m {
      SizeRemove(t - {m}, b);
      assert (t - {b}).Keys == t.Keys - {b};
      LeastIs((t - {b}).Keys, m);
      assert t - {m} - {b} == t - {b} - {m};
    }
  }

  /** Each block's sectors are split between what is taken and what is left. */
  ghost predicate Splits(t: Terminations, taken: Terminations, rest: Terminations) {
    && taken.Keys <= t.Keys && rest.Keys <= t.Keys
    && forall b :: b in t ==>
         SectorsAt(taken, b) + SectorsAt(rest, b) == t[b] && SectorsAt(taken, b) !! SectorsAt(rest, b)
  }

  /** A pop loses nothing and invents nothing. */
  lemma {:induction false} PopSplits(t: Terminations, max: nat)
    ensures Splits(t, Pop(t, max).taken, Pop(t, max).rest)
    decreases t.Keys
  {
    if t != map[] {
      var b := Least(t.Keys);
      assert (t - {b}).Keys == t.Keys - {b};
      if |t[b]| < max {
        PopSplits(t - {b}, max - |t[b]|);
        var more := Pop(t - {b}, max - |t[b]|);
        SplitsMore(t, b, more.taken, more.rest);
      }
    }
  }

  /** A pop stays within its limit and stops short of it only when nothing is left. */
  lemma {:induction false} PopCounts(t: Terminations, max: nat)
    ensures Pop(t, max).count <= max && (Pop(t, max).count < max ==> Pop(t, max).rest == map[])
    ensures Size(t) == Pop(t, max).count + Size(Pop(t, max).rest)
    ensures Size(Pop(t, max).taken) == Pop(t, max).count
    decreases t.Keys
  {
    if t != map[] {
      var b := Least(t.Keys);
      assert (t - {b}).Keys == t.Keys - {b};
      SizeRemove(t, b);
      if |t[b]| > max {
        PartialCounts(t, b, Lowest(t[b], max));
      } else if |t[b]| == max {
        SingleSize(b, t[b]);
      } else {
        PopCounts(t - {b}, max - |t[b]|);
        var more := Pop(t - {b}, max - |t[b]|);
        PopSplits(t - {b}, max - |t[b]|);
        SizeAdd(more.taken, b, t[b]);
      }
    }
  }

  lemma {:induction false} SizeAdd(t: Terminations, b: nat, s: set<nat>)
    requires b !in t
    ensures Size(t[b := s]) == Size(t) + |s|
  {
    SizeRemove(t[b := s], b);
    assert t[b := s] - {b} == t;
  }

  lemma {:induction false} PartialCounts(t: Terminations, b: nat, part: set<nat>)
    requires b in t && part <= t[b]
    ensures Size(t) == |part| + Size(t[b := t[b] - part])
    ensures Size(map[b := part]) == |part|
  {
    var rest := t[b := t[b] - part];
    SizeRemove(t, b);
    SizeRemove(rest, b);
    assert rest - {b} == t - {b};
    SingleSize(b, part);
    assert |t[b] - part| == |t[b]| - |part|;
  }

  lemma {:induction false} SplitsMore(t: Terminations, b: nat, taken: Terminations, rest: Terminations)
    requires b in t && Splits(t - {b}, taken, rest)
    ensures Splits(t, taken[b := t[b]], rest)
  {
    var all := taken[b := t[b]];
    forall c | c in t ensures SectorsAt(all, c) + SectorsAt(rest, c) == t[c]
        && SectorsAt(all, c) !! SectorsAt(rest, c) {
      if c != b { assert c in t - {b}; }
    }
  }

  lemma {:induction false} SingleSize(b: nat, s: set<nat>)
    ensures Size(map[b := s]) == |s|
  {
    var t := map[b := s];
    SizeRemove(t, b);
    assert t - {b} == map[];
  }
}
