/** Which deadline a new sector goes to (pallets/storage-provider/src/deadline/assignment.rs): the least
    one in an order on what the deadlines hold. */
module Assignment {
  datatype Load = Load(index: nat, live: int, total: int)

  datatype Order = Less | Equal | Greater

  function Compare(a: int, b: int): Order {
    if a < b then Less else if a == b then Equal else Greater
  }

  function DivCeil(n: int, size: nat): int
    requires size > 0
  {
    (n + size - 1) / size
  }

  predicate IsFullNow(l: Load, size: nat)
    requires size > 0
  {
    l.total % size == 0
  }

  function Flag(b: bool): nat { if b then 1 else 0 }

  /** Fewest partitions once compacted, then fewest partitions, then one with room, the fullest of those
      first, then fewest live sectors, then the lowest index. */
  function Rank(a: Load, b: Load, size: nat): Order
    requires size > 0
  {
    var compacted := Compare(DivCeil(a.live + 1, size), DivCeil(b.live + 1, size));
    if compacted != Equal then compacted else
    var partitions := Compare(DivCeil(a.total + 1, size), DivCeil(b.total + 1, size));
    if partitions != Equal then partitions else
    var full := Compare(Flag(IsFullNow(a, size)), Flag(IsFullNow(b, size)));
    if full != Equal then full else
    var fullest := if !IsFullNow(a, size) && !IsFullNow(b, size) then Compare(b.total, a.total) else Equal;
    if fullest != Equal then fullest else
    var live := Compare(a.live, b.live);
    if live != Equal then live else Compare(a.index, b.index)
  }

  /** What the order compares, most significant first. */
  function Key(l: Load, size: nat): seq<int>
    requires size > 0
  {
    [DivCeil(l.live + 1, size), DivCeil(l.total + 1, size), Flag(IsFullNow(l, size)),
     if IsFullNow(l, size) then 0 else 0 - l.total, l.live, l.index]
  }

  function Lexicographic(a: seq<int>, b: seq<int>): Order
    requires |a| == |b|
  {
    if a == [] then Equal else
    if a[0] != b[0] then Compare(a[0], b[0]) else Lexicographic(a[1..], b[1..])
  }

  lemma {:induction false} LexicographicOrder(a: seq<int>, b: seq<int>, c: seq<int>)
    requires |a| == |b| == |c|
    ensures Lexicographic(a, b) == Equal <==> a == b
    ensures Lexicographic(a, b) == Less <==> Lexicographic(b, a) == Greater
    ensures Lexicographic(a, b) == Less && Lexicographic(b, c) == Less ==> Lexicographic(a, c) == Less
  {
    if a != [] {
      LexicographicOrder(a[1..], b[1..], c[1..]);
      assert a == [a[0]] + a[1..] && b == [b[0]] + b[1..];
    }
  }

  lemma {:induction false} NextCompared(k: seq<int>, l: seq<int>, i: nat)
    requires i < |k| == |l|
    ensures Lexicographic(k[i..], l[i..]) == if k[i] != l[i] then Compare(k[i], l[i])
            else Lexicographic(k[i + 1..], l[i + 1..])
  {
    assert k[i..][1..] == k[i + 1..] && l[i..][1..] == l[i + 1..];
  }

  /** The chain of comparisons is one lexicographic comparison. */
  lemma {:induction false} RankIsLexicographic(a: Load, b: Load, size: nat)
    requires size > 0
    ensures Rank(a, b, size) == Lexicographic(Key(a, size), Key(b, size))
  {
    var k, l := Key(a, size), Key(b, size);
    Unfolded(k, l);
  }

  lemma {:induction false} Unfolded(k: seq<int>, l: seq<int>)
    requires |k| == |l| == 6
    ensures Lexicographic(k, l) ==
            if k[0] != l[0] then Compare(k[0], l[0]) else if k[1] != l[1] then Compare(k[1], l[1])
            else if k[2] != l[2] then Compare(k[2], l[2]) else if k[3] != l[3] then Compare(k[3], l[3])
            else if k[4] != l[4] then Compare(k[4], l[4]) else Compare(k[5], l[5])
  {
    assert k[0..] == k && l[0..] == l && k[6..] == [] && l[6..] == [];
    NextCompared(k, l, 0);
    NextCompared(k, l, 1);
    NextCompared(k, l, 2);
    NextCompared(k, l, 3);
    NextCompared(k, l, 4);
    NextCompared(k, l, 5);
  }

  /** So it is a total order: the heap of the deadlines has one least element. */
  lemma {:induction false} RankTotal(a: Load, b: Load, c: Load, size: nat)
    requires size > 0
    ensures a.index != b.index ==> Rank(a, b, size) != Equal
    ensures Rank(a, b, size) == Less <==> Rank(b, a, size) == Greater
    ensures Rank(a, b, size) == Less && Rank(b, c, size) == Less ==> Rank(a, c, size) == Less
  {
    RankIsLexicographic(a, b, size);
    RankIsLexicographic(b, a, size);
    RankIsLexicographic(b, c, size);
    RankIsLexicographic(a, c, size);
    LexicographicOrder(Key(a, size), Key(b, size), Key(c, size));
  }
}

/** What the order compares, said of the deadlines themselves. */
module AssignmentMeaning {
  import opened Arith
  import opened Results
  import opened ExpirationQueue
  import opened Deadlines
  import opened DeadlineSpec
  import opened Assignment
  import DI = DeadlineInvariant

  /** The least number of partitions that hold n sectors. */
  lemma {:induction false} DivCeilLeast(n: nat, size: nat)
    requires size > 0
    ensures DivCeil(n, size) >= 0 && DivCeil(n, size) * size >= n
    ensures forall k: nat :: k * size >= n ==> DivCeil(n, size) <= k
  {
    var q, r := Euclid(n + size - 1, size);
    forall k: nat | k * size >= n ensures q <= k {
      MulOrder(q, k, size);
    }
  }

  /** The partitions a deadline has once one more sector is in it. */
  lemma {:induction false} PartitionsAfterOne(d: Deadline, infos: Infos, size: nat, x: SectorInfo, d': Deadline)
    requires Valid(d, infos, size) && FreshItems(d.partitions, infos, [x])
    requires Deadlines.AddSectors(d, size, [x]) == Ok(d')
    ensures |d'.partitions| == DivCeil(d.totalSectors + 1, size)
  {
    DI.AddKeeps(d, infos, size, [x]);
    PartitionsHeld(d', infos, size);
  }

  lemma {:induction false} PartitionsHeld(d: Deadline, infos: Infos, size: nat)
    requires Valid(d, infos, size)
    ensures |d.partitions| == DivCeil(d.totalSectors, size)
  {
    var count := DI.PartitionsNeeded(d.partitions, infos, size, d.totalSectors);
  }

  /** A deadline counts as full exactly when no partition has room, so that one more sector opens a new one. */
  lemma {:induction false} FullExactly(d: Deadline, infos: Infos, size: nat, load: Load)
    requires Valid(d, infos, size) && load.total == d.totalSectors
    ensures IsFullNow(load, size) <==> forall n :: n in d.partitions ==> |d.partitions[n].sectors| == size
  {
    var parts := d.partitions;
    if |parts| > 0 {
      DI.FillStart(parts, infos, size);
      var last: nat := |parts| - 1;
      assert last in parts;
      var held := |parts[last].sectors|;
      DI.FullCount(parts, size, last);
      LastFull(last, held, size, d.totalSectors);
    }
  }

  lemma {:induction false} LastFull(last: nat, held: nat, size: nat, total: int)
    requires 1 <= held <= size && total == last * size + held
    ensures total % size == 0 <==> held == size
  {
    if held == size {
      Distribute(last, 1, size);
      MultipleMod(last + 1, size);
    } else {
      DivBy(total, last, size, held);
    }
  }
}
