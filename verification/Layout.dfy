/** What the data commitment of a sector means: pieces are placed in order, each at the first
    offset aligned to its size, everything else is zero, and the commitment is the root of the
    perfect binary tree over that layout.  The hash is a parameter. */
module Layout {
  import opened Arith
  import opened PieceSize

  /** The zero table of zero.rs covers 128 bytes up to 128 * 2^34 bytes. */
  const TABLE_LEVELS: nat := 35
  const TABLE_MAX: nat := 2199023255552

  datatype PieceInfo<C> = PieceInfo(commitment: C, size: nat)

  /** The two-to-one piece hash and the table of zero-piece commitments. */
  datatype Hasher<!C> = Hasher(join: (C, C) -> C, zeros: seq<C>)

  /** Each table entry commits to two copies of the previous one. */
  ghost predicate Consistent<C>(h: Hasher<C>) {
    && |h.zeros| == TABLE_LEVELS
    && forall k :: 0 <= k < TABLE_LEVELS - 1 ==> h.zeros[k + 1] == h.join(h.zeros[k], h.zeros[k])
  }

  predicate Tabled(size: nat) {
    IsPadded(size) && size <= TABLE_MAX
  }

  /** trailing_zeros(size) - 7, the row of the zero table. */
  function Level(size: nat): nat {
    if size <= 128 then 0 else 1 + Level(size / 2)
  }

  lemma {:induction false} LevelMonotone(s: nat, t: nat)
    requires s <= t
    ensures Level(s) <= Level(t)
  {
    if s > MIN_PADDED { LevelMonotone(s / 2, t / 2); }
  }

  function Pow2(k: nat): nat {
    if k == 0 then 1 else 2 * Pow2(k - 1)
  }

  lemma {:induction false} LevelOfPower(k: nat)
    ensures Pow2(k) > 0 && Level(128 * Pow2(k)) == k
  {
    if k > 0 { LevelOfPower(k - 1); }
  }

  lemma {:induction false} PowerIsPadded(k: nat)
    ensures IsPadded(128 * Pow2(k))
  {
    if k > 0 {
      PowerIsPadded(k - 1);
      PaddedDouble(128 * Pow2(k - 1));
    }
  }

  lemma {:induction false} TableMaxPower()
    ensures TABLE_MAX == 128 * Pow2(34) && IsPadded(TABLE_MAX)
  {
    PowerIsPadded(34);
    assert Pow2(12) == 4096;
    assert Pow2(24) == 16777216;
  }

  lemma {:induction false} LevelInTable(size: nat)
    requires size <= TABLE_MAX
    ensures Level(size) < TABLE_LEVELS
  {
    LevelMonotone(size, TABLE_MAX);
    LevelOfPower(34);
    TableMaxPower();
  }

  function Zero<C>(h: Hasher<C>, size: nat): C
    requires |h.zeros| == TABLE_LEVELS && Tabled(size)
  {
    LevelInTable(size);
    h.zeros[Level(size)]
  }

  lemma {:induction false} ZeroDoubles<C>(h: Hasher<C>, size: nat)
    requires Consistent(h) && Tabled(size) && size > MIN_PADDED
    ensures Tabled(size / 2) && Zero(h, size) == h.join(Zero(h, size / 2), Zero(h, size / 2))
  {
    LevelInTable(size);
  }

  // ---------- placement ----------

  /** The first multiple of size at or after x. */
  function AlignUp(x: nat, size: nat): nat
    requires size > 0
  {
    if x % size == 0 then x else x - x % size + size
  }

  lemma {:induction false} AlignUpLeast(x: nat, size: nat)
    requires size > 0
    ensures AlignUp(x, size) % size == 0 && x <= AlignUp(x, size) < x + size
    ensures forall y: nat :: y >= x && y % size == 0 ==> AlignUp(x, size) <= y
  {
    var q := x / size;
    assert x == q * size + x % size;
    if x % size != 0 {
      assert AlignUp(x, size) == (q + 1) * size;
      MultipleMod(q + 1, size);
      forall y: nat | y >= x && y % size == 0 ensures AlignUp(x, size) <= y {
        var k := y / size;
        assert y == k * size;
        MulOrder(k, q, size);
      }
    }
  }

  predicate ValidPieces<C>(pieces: seq<PieceInfo<C>>) {
    forall i :: 0 <= i < |pieces| ==> IsPadded(pieces[i].size)
  }

  /** Where the last piece ends. */
  function End<C>(pieces: seq<PieceInfo<C>>): nat
    requires ValidPieces(pieces)
  {
    if pieces == [] then 0 else
    var p := pieces[|pieces| - 1];
    AlignUp(End(pieces[..|pieces| - 1]), p.size) + p.size
  }

  datatype Placed<C> = Placed(offset: nat, piece: PieceInfo<C>)

  function Place<C>(pieces: seq<PieceInfo<C>>): seq<Placed<C>>
    requires ValidPieces(pieces)
  {
    if pieces == [] then [] else
    var p := pieces[|pieces| - 1];
    var init := pieces[..|pieces| - 1];
    Place(init) + [Placed(AlignUp(End(init), p.size), p)]
  }

  ghost predicate Sits<C>(layout: seq<Placed<C>>, i: int, size: nat, base: nat) {
    0 <= i < |layout| && layout[i].offset == base && layout[i].piece.size == size
  }

  ghost predicate Overlaps<C>(p: Placed<C>, size: nat, base: nat) {
    p.offset < base + size && base < p.offset + p.piece.size
  }

  ghost predicate Vacant<C>(layout: seq<Placed<C>>, size: nat, base: nat) {
    forall i :: 0 <= i < |layout| ==> !Overlaps(layout[i], size, base)
  }

  /** The root over the bytes [base, base + size): a piece filling the range stands for itself,
      a range no piece touches is a zero piece, and otherwise the two halves are joined. */
  ghost function Root<C>(h: Hasher<C>, layout: seq<Placed<C>>, size: nat, base: nat): C
    requires |h.zeros| == TABLE_LEVELS && Tabled(size)
    decreases size
  {
    if exists i :: Sits(layout, i, size, base) then
      var i :| Sits(layout, i, size, base);
      layout[i].piece.commitment
    else if Vacant(layout, size, base) || size == MIN_PADDED then Zero(h, size)
    else h.join(Root(h, layout, size / 2, base), Root(h, layout, size / 2, base + size / 2))
  }

  lemma {:induction false} RootVacant<C>(h: Hasher<C>, layout: seq<Placed<C>>, size: nat, base: nat)
    requires |h.zeros| == TABLE_LEVELS && Tabled(size) && Vacant(layout, size, base)
    ensures Root(h, layout, size, base) == Zero(h, size)
  {
    if i :| Sits(layout, i, size, base) {
      assert Overlaps(layout[i], size, base);
      assert false;
    }
  }

  /** A range that is not a single piece is the join of its halves, vacant or not. */
  lemma {:induction false} RootSplit<C>(h: Hasher<C>, layout: seq<Placed<C>>, size: nat, base: nat)
    requires Consistent(h) && Tabled(size) && size > MIN_PADDED
    requires forall i :: !Sits(layout, i, size, base)
    ensures Root(h, layout, size, base)
         == h.join(Root(h, layout, size / 2, base), Root(h, layout, size / 2, base + size / 2))
  {
    if Vacant(layout, size, base) {
      forall i | 0 <= i < |layout|
        ensures !Overlaps(layout[i], size / 2, base) && !Overlaps(layout[i], size / 2, base + size / 2)
      {
        assert !Overlaps(layout[i], size, base);
      }
      RootVacant(h, layout, size / 2, base);
      RootVacant(h, layout, size / 2, base + size / 2);
      ZeroDoubles(h, size);
    }
  }

  lemma {:induction false} RootSits<C>(h: Hasher<C>, layout: seq<Placed<C>>, i: nat, size: nat, base: nat)
    requires |h.zeros| == TABLE_LEVELS && Tabled(size) && Distinct(layout) && Sits(layout, i, size, base)
    ensures Root(h, layout, size, base) == layout[i].piece.commitment
  {
    forall j | Sits(layout, j, size, base) ensures j == i {
      assert layout[i].offset == layout[j].offset;
    }
  }

  /** Pieces placed after a range do not change its root. */
  lemma {:induction false} RootAppend<C>(h: Hasher<C>, layout: seq<Placed<C>>, p: Placed<C>, size: nat, base: nat)
    requires |h.zeros| == TABLE_LEVELS && Tabled(size) && base + size <= p.offset
    requires Distinct(layout) && Distinct(layout + [p])
    ensures Root(h, layout + [p], size, base) == Root(h, layout, size, base)
    decreases size
  {
    var more := layout + [p];
    AppendFacts(layout, p, size, base);
    if i :| Sits(layout, i, size, base) {
      RootSits(h, layout, i, size, base);
      RootSits(h, more, i, size, base);
    } else if size > MIN_PADDED && !Vacant(layout, size, base) {
      RootJoin(h, layout, size, base);
      RootJoin(h, more, size, base);
      RootAppend(h, layout, p, size / 2, base);
      RootAppend(h, layout, p, size / 2, base + size / 2);
    } else {
      RootZero(h, layout, size, base);
      RootZero(h, more, size, base);
    }
  }

  lemma {:induction false} RootJoin<C>(h: Hasher<C>, layout: seq<Placed<C>>, size: nat, base: nat)
    requires |h.zeros| == TABLE_LEVELS && Tabled(size) && size > MIN_PADDED
    requires !Vacant(layout, size, base) && forall i :: !Sits(layout, i, size, base)
    ensures Tabled(size / 2)
    ensures Root(h, layout, size, base)
         == h.join(Root(h, layout, size / 2, base), Root(h, layout, size / 2, base + size / 2))
  {
  }

  lemma {:induction false} RootZero<C>(h: Hasher<C>, layout: seq<Placed<C>>, size: nat, base: nat)
    requires |h.zeros| == TABLE_LEVELS && Tabled(size)
    requires Vacant(layout, size, base) || size == MIN_PADDED
    requires forall i :: !Sits(layout, i, size, base)
    ensures Root(h, layout, size, base) == Zero(h, size)
  {
  }

  lemma {:induction false} AppendFacts<C>(layout: seq<Placed<C>>, p: Placed<C>, size: nat, base: nat)
    requires base + size <= p.offset && size > 0
    ensures forall i :: Sits(layout + [p], i, size, base) <==> Sits(layout, i, size, base)
    ensures Vacant(layout + [p], size, base) <==> Vacant(layout, size, base)
  {
    var more := layout + [p];
    assert forall i :: 0 <= i < |layout| ==> more[i] == layout[i];
    assert more[|layout|] == p && !Overlaps(p, size, base);
  }

  /** No two pieces share an offset. */
  ghost predicate Distinct<C>(layout: seq<Placed<C>>) {
    forall i, j :: 0 <= i < j < |layout| ==> layout[i].offset != layout[j].offset
  }

  /** Each piece is placed on its own grid and ends by End. */
  lemma {:induction false} PlaceAligned<C>(pieces: seq<PieceInfo<C>>)
    requires ValidPieces(pieces)
    ensures |Place(pieces)| == |pieces|
    ensures forall i :: 0 <= i < |pieces| ==>
              && Place(pieces)[i].piece == pieces[i] && Place(pieces)[i].offset % pieces[i].size == 0
              && Place(pieces)[i].offset + pieces[i].size <= End(pieces)
  {
    if pieces != [] {
      var n := |pieces| - 1;
      PlaceAligned(pieces[..n]);
      AlignUpLeast(End(pieces[..n]), pieces[n].size);
      assert forall i :: 0 <= i < n ==> pieces[..n][i] == pieces[i] && Place(pieces)[i] == Place(pieces[..n])[i];
    }
  }

  /** Placement keeps the order, aligns every piece, leaves no overlap and ends at End. */
  lemma {:induction false} PlaceWellFormed<C>(pieces: seq<PieceInfo<C>>)
    requires ValidPieces(pieces)
    ensures |Place(pieces)| == |pieces|
    ensures forall i :: 0 <= i < |pieces| ==> Place(pieces)[i].piece == pieces[i]
    ensures forall i :: 0 <= i < |pieces| ==> Place(pieces)[i].offset % pieces[i].size == 0
    ensures forall i :: 0 <= i < |pieces| ==> Place(pieces)[i].offset + pieces[i].size <= End(pieces)
    ensures forall i, j :: 0 <= i < j < |pieces| ==>
              Place(pieces)[i].offset + pieces[i].size <= Place(pieces)[j].offset
    ensures Distinct(Place(pieces))
  {
    PlaceAligned(pieces);
    forall i, j | 0 <= i < j < |pieces| ensures Place(pieces)[i].offset + pieces[i].size <= Place(pieces)[j].offset {
      PlaceOrdered(pieces, i, j);
    }
  }

  lemma {:induction false} PlaceOrdered<C>(pieces: seq<PieceInfo<C>>, i: nat, j: nat)
    requires ValidPieces(pieces) && i < j < |pieces| == |Place(pieces)|
    ensures Place(pieces)[i].offset + pieces[i].size <= Place(pieces)[j].offset
  {
    var n := |pieces| - 1;
    var init := pieces[..n];
    PlaceAligned(init);
    assert Place(pieces)[i] == Place(init)[i] && init[i] == pieces[i];
    if j < n {
      PlaceOrdered(init, i, j);
      assert Place(pieces)[j] == Place(init)[j];
    } else {
      AlignUpLeast(End(init), pieces[n].size);
    }
  }

  function SizeSum<C>(pieces: seq<PieceInfo<C>>): nat {
    if pieces == [] then 0 else SizeSum(pieces[..|pieces| - 1]) + pieces[|pieces| - 1].size
  }

  /** Alignment never doubles the space the pieces need. */
  lemma {:induction false} EndBound<C>(pieces: seq<PieceInfo<C>>)
    requires ValidPieces(pieces) && pieces != []
    ensures SizeSum(pieces) <= End(pieces) < 2 * SizeSum(pieces)
  {
    var n := |pieces| - 1;
    var init, p := pieces[..n], pieces[n];
    AlignUpLeast(End(init), p.size);
    if init != [] { EndBound(init); }
  }

  // ---------- the root as the Merkle root of the sector's content ----------

  /** The Merkle root of the 128-byte chunks in [base, base + size). */
  ghost function Merkle<C>(h: Hasher<C>, chunk: nat -> C, size: nat, base: nat): C
    requires IsPadded(size)
  {
    if size == MIN_PADDED then chunk(base / MIN_PADDED)
    else h.join(Merkle(h, chunk, size / 2, base), Merkle(h, chunk, size / 2, base + size / 2))
  }

  /** The chunks agree with a layout: zero outside every piece, and each piece's commitment is the
      Merkle root of what lies in its place. */
  ghost predicate Holds<C>(h: Hasher<C>, layout: seq<Placed<C>>, chunk: nat -> C)
    requires |h.zeros| == TABLE_LEVELS
  {
    && (forall k: nat :: Vacant(layout, MIN_PADDED, k * MIN_PADDED) ==> chunk(k) == Zero(h, MIN_PADDED))
    && (forall i :: 0 <= i < |layout| ==> IsPadded(layout[i].piece.size))
    && (forall i :: 0 <= i < |layout| ==>
          layout[i].piece.commitment == Merkle(h, chunk, layout[i].piece.size, layout[i].offset))
  }

  ghost predicate Aligned<C>(layout: seq<Placed<C>>) {
    forall i :: 0 <= i < |layout| ==> IsPadded(layout[i].piece.size) && layout[i].offset % layout[i].piece.size == 0
  }

  lemma {:induction false} MerkleVacant<C>(h: Hasher<C>, layout: seq<Placed<C>>, chunk: nat -> C, size: nat, base: nat)
    requires Consistent(h) && Tabled(size) && base % size == 0
    requires Holds(h, layout, chunk) && Vacant(layout, size, base)
    ensures Merkle(h, chunk, size, base) == Zero(h, size)
    decreases size
  {
    if size == MIN_PADDED {
      var k := base / MIN_PADDED;
      assert k * MIN_PADDED == base;
    } else {
      HalvesAligned(size, base);
      forall i | 0 <= i < |layout|
        ensures !Overlaps(layout[i], size / 2, base) && !Overlaps(layout[i], size / 2, base + size / 2)
      {
        assert !Overlaps(layout[i], size, base);
      }
      MerkleVacant(h, layout, chunk, size / 2, base);
      MerkleVacant(h, layout, chunk, size / 2, base + size / 2);
      ZeroDoubles(h, size);
    }
  }

  lemma {:induction false} HalvesAligned(size: nat, base: nat)
    requires IsPadded(size) && size > MIN_PADDED && base % size == 0
    ensures base % (size / 2) == 0 && (base + size / 2) % (size / 2) == 0
  {
    var q, s := base / size, size / 2;
    assert base == q * size == (2 * q) * s;
    MultipleMod(2 * q, s);
    assert base + s == (2 * q + 1) * s;
    MultipleMod(2 * q + 1, s);
  }

  /** An aligned range overlapping an aligned piece no larger than half of it contains the piece in one half. */
  lemma {:induction false} NoStraddle(o: nat, t: nat, size: nat, base: nat)
    requires IsPadded(t) && o % t == 0 && IsPadded(size) && base % size == 0
    requires o < base + size && base < o + t
    ensures t <= size ==> base <= o && o + t <= base + size
    ensures t >= size ==> o <= base && base + size <= o + t
  {
    if t <= size { Contained(o, t, size, base); }
    if t >= size { Contained(base, size, t, o); }
  }

  lemma {:induction false} Contained(o: nat, t: nat, size: nat, base: nat)
    requires IsPadded(t) && o % t == 0 && IsPadded(size) && base % size == 0 && t <= size
    requires o < base + size && base < o + t
    ensures base <= o && o + t <= base + size
  {
    PaddedDivides(t, size);
    ModTrans(base, size, t);
    SameGrid(o, base, t);
    ModTrans(base, size, t);
    ModTrans(o, t, t);
    SameGrid(base + size, o + t, t);
  }

  /** The root over a layout is the Merkle root of any sector content the layout describes. */
  lemma {:induction false} RootIsMerkle<C>(h: Hasher<C>, layout: seq<Placed<C>>, chunk: nat -> C, size: nat, base: nat)
    requires Consistent(h) && Tabled(size) && base % size == 0
    requires Aligned(layout) && Holds(h, layout, chunk)
    requires forall i :: 0 <= i < |layout| && Overlaps(layout[i], size, base) ==> layout[i].piece.size <= size
    ensures Root(h, layout, size, base) == Merkle(h, chunk, size, base)
    decreases size
  {
    if exists i :: Sits(layout, i, size, base) {
    } else if Vacant(layout, size, base) {
      MerkleVacant(h, layout, chunk, size, base);
    } else {
      var i :| 0 <= i < |layout| && Overlaps(layout[i], size, base);
      FitsInHalf(layout, i, size, base);
      HalvesAligned(size, base);
      HalvesFit(layout, size, base);
      RootIsMerkle(h, layout, chunk, size / 2, base);
      RootIsMerkle(h, layout, chunk, size / 2, base + size / 2);
    }
  }

  lemma {:induction false} HalvesFit<C>(layout: seq<Placed<C>>, size: nat, base: nat)
    requires Aligned(layout) && IsPadded(size) && base % size == 0
    requires forall i :: 0 <= i < |layout| && Overlaps(layout[i], size, base) ==> layout[i].piece.size <= size
    requires !exists i :: Sits(layout, i, size, base)
    ensures forall j :: 0 <= j < |layout| && Overlaps(layout[j], size / 2, base) ==> layout[j].piece.size <= size / 2
    ensures forall j :: 0 <= j < |layout| && Overlaps(layout[j], size / 2, base + size / 2) ==>
                layout[j].piece.size <= size / 2
  {
    forall j | 0 <= j < |layout|
      ensures Overlaps(layout[j], size / 2, base) ==> layout[j].piece.size <= size / 2
      ensures Overlaps(layout[j], size / 2, base + size / 2) ==> layout[j].piece.size <= size / 2
    {
      if Overlaps(layout[j], size, base) { FitsInHalf(layout, j, size, base); }
    }
  }

  lemma {:induction false} FitsInHalf<C>(layout: seq<Placed<C>>, i: nat, size: nat, base: nat)
    requires Aligned(layout) && i < |layout| && IsPadded(size) && base % size == 0
    requires Overlaps(layout[i], size, base) && layout[i].piece.size <= size
    requires forall j :: !Sits(layout, j, size, base)
    ensures size > MIN_PADDED && layout[i].piece.size <= size / 2
  {
    var o, t := layout[i].offset, layout[i].piece.size;
    NoStraddle(o, t, size, base);
    assert !Sits(layout, i, size, base);
    if t == size { assert false; }
    PaddedDivides(t, size);
  }
}
