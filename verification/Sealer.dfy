/** Filling up a sector with zero pieces before sealing (lib/polka-storage-proofs/src/porep/sealer.rs). */
module Sealer {
  import opened Arith
  import opened PieceSize
  import opened Results
  import opened Layout
  import opened Commd

  /** A piece as the proofs library counts it: its size is in unpadded bytes. */
  datatype RawPiece<C> = RawPiece(commitment: C, unpadded: nat)

  /** The set bits of a number, lowest first. */
  function LowToHigh(n: nat): seq<nat>
    decreases n
  {
    if n == 0 then [] else
    LowBitFacts(n);
    [LowBit(n)] + LowToHigh(n - LowBit(n))
  }

  lemma {:induction false} LowBitFacts(n: nat)
    requires n > 0
    ensures IsPowerOfTwo(LowBit(n)) && 0 < LowBit(n) <= n && n % LowBit(n) == 0
    ensures CountOnes(n) > 0 && CountOnes(n - LowBit(n)) == CountOnes(n) - 1
  {
    if n % 2 == 1 {
      OnesWithoutLast(n);
    } else {
      LowBitFacts(n / 2);
      var f := LowBit(n / 2);
      assert (2 * f) / 2 == f;
      EvenLowBit(n / 2, f);
      OnesDouble(n / 2);
      OnesDouble(n / 2 - f);
    }
  }

  lemma {:induction false} OnesWithoutLast(n: nat)
    requires n % 2 == 1
    ensures CountOnes(n) == 1 + CountOnes(n - 1)
  {
    assert (n - 1) / 2 == n / 2 && (n - 1) % 2 == 0;
  }

  lemma {:induction false} OnesDouble(n: nat)
    ensures CountOnes(2 * n) == CountOnes(n)
  {
    assert (2 * n) / 2 == n && (2 * n) % 2 == 0;
  }

  lemma {:induction false} EvenLowBit(m: nat, f: nat)
    requires f > 0 && m % f == 0
    ensures (2 * m) % (2 * f) == 0
  {
    var k, zero := Euclid(m, f);
    assert 2 * m == k * (2 * f);
    MultipleMod(k, 2 * f);
  }

  lemma {:induction false} LowBitDouble(n: nat)
    requires n > 0
    ensures LowBit(2 * n) == 2 * LowBit(n)
  {
    assert (2 * n) / 2 == n && (2 * n) % 2 == 0;
  }

  lemma {:induction false} LowBitEight(n: nat)
    requires n > 0
    ensures LowBit(8 * n) == 8 * LowBit(n)
  {
    LowBitDouble(n);
    LowBitDouble(2 * n);
    LowBitDouble(4 * n);
  }

  /** Whole 128-byte blocks have a valid padded size as their lowest bit. */
  lemma {:induction false} LowBitPadded(n: nat)
    requires n > 0 && n % 128 == 0
    ensures IsPadded(LowBit(n)) && LowBit(n) <= n && (n - LowBit(n)) % 128 == 0
  {
    var m := n / 128;
    LowBitOfBlocks(m);
    LowBitFacts(m);
    LowBitFacts(n);
    PaddedIsPower(LowBit(n));
    MultipleMod(m - LowBit(m), 128);
    assert n - LowBit(n) == (m - LowBit(m)) * 128;
  }

  lemma {:induction false} LowBitOfBlocks(m: nat)
    requires m > 0
    ensures LowBit(128 * m) == 128 * LowBit(m)
  {
    LowBitEight(m);
    LowBitEight(8 * m);
    LowBitDouble(64 * m);
  }

  function PiecesOf<C>(h: Hasher<C>, sizes: seq<nat>): seq<PieceInfo<C>>
    requires |h.zeros| == TABLE_LEVELS && forall i :: 0 <= i < |sizes| ==> Tabled(sizes[i])
  {
    seq(|sizes|, i requires 0 <= i < |sizes| => PaddingPiece(h, sizes[i]))
  }

  /** The fillers for `remaining` padded bytes. */
  function Fillers<C>(h: Hasher<C>, remaining: nat): seq<PieceInfo<C>>
    requires |h.zeros| == TABLE_LEVELS && remaining % 128 == 0 && remaining <= TABLE_MAX
  {
    FillerSizes(remaining);
    PiecesOf(h, LowToHigh(remaining))
  }

  lemma {:induction false} FillerSizes(remaining: nat)
    requires remaining % 128 == 0 && remaining <= TABLE_MAX
    ensures forall i :: 0 <= i < |LowToHigh(remaining)| ==> Tabled(LowToHigh(remaining)[i])
    ensures |LowToHigh(remaining)| == CountOnes(remaining)
    decreases remaining
  {
    if remaining > 0 {
      LowBitPadded(remaining);
      LowBitFacts(remaining);
      FillerSizes(remaining - LowBit(remaining));
    }
  }

  // ---------- a zero piece in empty space is invisible ----------

  lemma {:induction false} AppendElsewhere<C>(layout: seq<Placed<C>>, p: Placed<C>, size: nat, base: nat)
    requires size > 0 && p.piece.size > 0 && !Overlaps(p, size, base)
    ensures forall i :: Sits(layout + [p], i, size, base) <==> Sits(layout, i, size, base)
    ensures Vacant(layout + [p], size, base) <==> Vacant(layout, size, base)
  {
    var more := layout + [p];
    assert forall i :: 0 <= i < |layout| ==> more[i] == layout[i];
    assert more[|layout|] == p;
  }

  lemma {:induction false} ZeroPieceInvisible<C>(h: Hasher<C>, layout: seq<Placed<C>>, o: nat, t: nat, size: nat,
                                                 base: nat)
    requires Consistent(h) && Tabled(t) && Tabled(size) && o % t == 0 && base % size == 0
    requires Vacant(layout, t, o)
    requires Distinct(layout) && Distinct(layout + [Placed(o, PaddingPiece(h, t))])
    requires Overlaps(Placed(o, PaddingPiece(h, t)), size, base) ==> t <= size
    ensures Root(h, layout + [Placed(o, PaddingPiece(h, t))], size, base) == Root(h, layout, size, base)
    decreases size
  {
    if size > MIN_PADDED {
      HalvesAligned(size, base);
      var p := Placed(o, PaddingPiece(h, t));
      if Overlaps(p, size, base) {
        if t < size { PaddedDivides(t, size); }
        else { NoStraddle(o, t, size, base); }
      }
      if t != size || !Overlaps(p, size, base) {
        ZeroPieceInvisible(h, layout, o, t, size / 2, base);
        ZeroPieceInvisible(h, layout, o, t, size / 2, base + size / 2);
      }
    }
    InvisibleStep(h, layout, o, t, size, base);
  }

  /** One level of the tree, given that the halves already agree. */
  lemma {:induction false} InvisibleStep<C>(h: Hasher<C>, layout: seq<Placed<C>>, o: nat, t: nat, size: nat, base: nat)
    requires Consistent(h) && Tabled(t) && Tabled(size) && o % t == 0 && base % size == 0
    requires Vacant(layout, t, o)
    requires Distinct(layout) && Distinct(layout + [Placed(o, PaddingPiece(h, t))])
    requires Overlaps(Placed(o, PaddingPiece(h, t)), size, base) ==> t <= size
    requires size > MIN_PADDED && !(t == size && Overlaps(Placed(o, PaddingPiece(h, t)), size, base)) ==>
               HalvesAgree(h, layout, Placed(o, PaddingPiece(h, t)), size, base)
    ensures Root(h, layout + [Placed(o, PaddingPiece(h, t))], size, base) == Root(h, layout, size, base)
  {
    var p := Placed(o, PaddingPiece(h, t));
    var more := layout + [p];
    if !Overlaps(p, size, base) {
      ElsewhereStep(h, layout, p, size, base);
    } else {
      NoStraddle(o, t, size, base);
      if t == size {
        assert Sits(more, |layout|, size, base);
        RootSits(h, more, |layout|, size, base);
        RootVacant(h, layout, size, base);
      } else {
        NothingSits(layout, p, size, base);
        assert Overlaps(more[|layout|], size, base);
        PaddedDivides(t, size);
        RootJoin(h, more, size, base);
        RootSplit(h, layout, size, base);
      }
    }
  }

  ghost predicate HalvesAgree<C>(h: Hasher<C>, layout: seq<Placed<C>>, p: Placed<C>, size: nat, base: nat)
    requires |h.zeros| == TABLE_LEVELS && Tabled(size) && size > MIN_PADDED
  {
    && Root(h, layout + [p], size / 2, base) == Root(h, layout, size / 2, base)
    && Root(h, layout + [p], size / 2, base + size / 2) == Root(h, layout, size / 2, base + size / 2)
  }

  lemma {:induction false} ElsewhereStep<C>(h: Hasher<C>, layout: seq<Placed<C>>, p: Placed<C>, size: nat, base: nat)
    requires Consistent(h) && Tabled(size) && p.piece.size > 0 && !Overlaps(p, size, base)
    requires Distinct(layout) && Distinct(layout + [p])
    requires size > MIN_PADDED ==> HalvesAgree(h, layout, p, size, base)
    ensures Root(h, layout + [p], size, base) == Root(h, layout, size, base)
  {
    var more := layout + [p];
    AppendElsewhere(layout, p, size, base);
    if i :| Sits(layout, i, size, base) {
      RootSits(h, layout, i, size, base);
      RootSits(h, more, i, size, base);
    } else if size > MIN_PADDED && !Vacant(layout, size, base) {
      RootJoin(h, layout, size, base);
      RootJoin(h, more, size, base);
    } else {
      RootZero(h, layout, size, base);
      RootZero(h, more, size, base);
    }
  }

  /** No piece fills a range that strictly contains a vacant place or the piece p put there. */
  lemma {:induction false} NothingSits<C>(layout: seq<Placed<C>>, p: Placed<C>, size: nat, base: nat)
    requires Vacant(layout, p.piece.size, p.offset)
    requires 0 < p.piece.size < size && base <= p.offset && p.offset + p.piece.size <= base + size
    ensures forall i :: !Sits(layout, i, size, base) && !Sits(layout + [p], i, size, base)
  {
    var more := layout + [p];
    forall i ensures !Sits(layout, i, size, base) && !Sits(more, i, size, base) {
      if 0 <= i < |layout| { assert !Overlaps(layout[i], p.piece.size, p.offset) && more[i] == layout[i]; }
    }
  }

  // ---------- fillers keep the commitment ----------

  lemma {:induction false} EndBlocks<C>(pieces: seq<PieceInfo<C>>)
    requires ValidPieces(pieces)
    ensures End(pieces) % 128 == 0
  {
    if pieces != [] {
      var size, before := Top(pieces).size, End(pieces[..|pieces| - 1]);
      BlockEnd(before, size);
    }
  }

  lemma {:induction false} BlockEnd(before: nat, size: nat)
    requires IsPadded(size)
    ensures (AlignUp(before, size) + size) % 128 == 0
  {
    PaddedBlocks(size);
    AlignUpLeast(before, size);
    ModTrans(AlignUp(before, size), size, 128);
  }

  /** The lowest bit of what is left of a sector divides what is already used. */
  lemma {:induction false} FillerFitsGrid(used: nat, sector: nat)
    requires IsPadded(sector) && used < sector && used % 128 == 0
    ensures var f := LowBit(sector - used);
            IsPadded(f) && used % f == 0 && used + f <= sector
  {
    var left := sector - used;
    assert left % 128 == 0 by {
      PaddedBlocks(sector);
      DifferenceOfMultiples(sector, used, 128);
    }
    LowBitPadded(left);
    LowBitFacts(left);
    DividesUsed(used, sector, LowBit(left));
  }

  lemma {:induction false} DividesUsed(used: nat, sector: nat, f: nat)
    requires IsPadded(sector) && IsPadded(f) && f <= sector - used && (sector - used) % f == 0
    ensures used % f == 0
  {
    PaddedDivides(f, sector);
    DifferenceOfMultiples(sector, sector - used, f);
  }

  /** Appending one filler moves the end by its size and leaves the root over the sector alone. */
  lemma {:induction false} OneFiller<C>(h: Hasher<C>, pieces: seq<PieceInfo<C>>, sector: nat)
    requires Consistent(h) && ValidPieces(pieces) && Tabled(sector) && End(pieces) < sector
    ensures var f := LowBit(sector - End(pieces));
            && Tabled(f) && ValidPieces(pieces + [PaddingPiece(h, f)])
            && End(pieces + [PaddingPiece(h, f)]) == End(pieces) + f <= sector
            && Root(h, Place(pieces + [PaddingPiece(h, f)]), sector, 0) == Root(h, Place(pieces), sector, 0)
  {
    var used := End(pieces);
    var f := LowBit(sector - used);
    EndBlocks(pieces);
    FillerFitsGrid(used, sector);
    var more := pieces + [PaddingPiece(h, f)];
    assert more[..|pieces|] == pieces && Top(more) == PaddingPiece(h, f);
    PlaceWellFormed(pieces);
    PlaceWellFormed(more);
    ZeroPieceInvisible(h, Place(pieces), used, f, sector, 0);
  }

  lemma {:induction false} SpaceLeft<C>(pieces: seq<PieceInfo<C>>, sector: nat)
    requires ValidPieces(pieces) && IsPadded(sector) && End(pieces) <= sector
    ensures (sector - End(pieces)) % 128 == 0
  {
    EndBlocks(pieces);
    PaddedBlocks(sector);
    DifferenceOfMultiples(sector, End(pieces), 128);
  }

  function Filled<C>(h: Hasher<C>, pieces: seq<PieceInfo<C>>, sector: nat): seq<PieceInfo<C>>
    requires |h.zeros| == TABLE_LEVELS && ValidPieces(pieces) && Tabled(sector) && End(pieces) <= sector
  {
    SpaceLeft(pieces, sector);
    pieces + Fillers(h, sector - End(pieces))
  }

  lemma {:induction false} FillersStep<C>(h: Hasher<C>, remaining: nat)
    requires |h.zeros| == TABLE_LEVELS && 0 < remaining <= TABLE_MAX && remaining % 128 == 0
    ensures var f := LowBit(remaining);
            && Tabled(f) && f <= remaining && (remaining - f) % 128 == 0
            && Fillers(h, remaining) == [PaddingPiece(h, f)] + Fillers(h, remaining - f)
  {
    LowBitPadded(remaining);
    FillerSizes(remaining);
    FillerSizes(remaining - LowBit(remaining));
  }

  lemma {:induction false} FilledStep<C>(h: Hasher<C>, pieces: seq<PieceInfo<C>>, sector: nat)
    requires |h.zeros| == TABLE_LEVELS && ValidPieces(pieces) && Tabled(sector) && End(pieces) < sector
    requires var f := LowBit(sector - End(pieces));
             && Tabled(f) && ValidPieces(pieces + [PaddingPiece(h, f)])
             && End(pieces + [PaddingPiece(h, f)]) == End(pieces) + f <= sector
    ensures Filled(h, pieces + [PaddingPiece(h, LowBit(sector - End(pieces)))], sector) == Filled(h, pieces, sector)
  {
    SpaceLeft(pieces, sector);
    FillersStep(h, sector - End(pieces));
  }

  lemma {:induction false} FillersInvisible<C>(h: Hasher<C>, pieces: seq<PieceInfo<C>>, sector: nat)
    requires Consistent(h) && ValidPieces(pieces) && Tabled(sector) && End(pieces) <= sector
    ensures ValidPieces(Filled(h, pieces, sector)) && End(Filled(h, pieces, sector)) == sector
    ensures Root(h, Place(Filled(h, pieces, sector)), sector, 0) == Root(h, Place(pieces), sector, 0)
    decreases sector - End(pieces)
  {
    SpaceLeft(pieces, sector);
    var remaining := sector - End(pieces);
    if remaining == 0 {
      assert Filled(h, pieces, sector) == pieces;
    } else {
      OneFiller(h, pieces, sector);
      FilledStep(h, pieces, sector);
      FillersInvisible(h, pieces + [PaddingPiece(h, LowBit(remaining))], sector);
    }
  }

  /** When the layout fits, the reduction ends with exactly one piece of the sector's size. */
  lemma {:induction false} FittingReduction<C>(h: Hasher<C>, pieces: seq<PieceInfo<C>>, sector: nat)
    requires Consistent(h) && Tabled(sector) && pieces != [] && ValidPieces(pieces) && End(pieces) <= sector
    ensures ReducePieces(h, sector, pieces) == PieceInfo(Root(h, Place(pieces), sector, 0), sector)
  {
    ReductionIsRoot(h, sector, pieces);
  }

  /** If the aligned pieces fit the sector, padding it out with fillers leaves its commitment unchanged. */
  lemma {:induction false} FillersKeepCommitment<C>(h: Hasher<C>, pieces: seq<PieceInfo<C>>, sector: nat)
    requires Consistent(h) && Tabled(sector) && pieces != [] && ValidPieces(pieces) && End(pieces) <= sector
    ensures ValidPieces(Filled(h, pieces, sector)) && End(Filled(h, pieces, sector)) == sector
    ensures ReducePieces(h, sector, Filled(h, pieces, sector)) == ReducePieces(h, sector, pieces)
  {
    FillersInvisible(h, pieces, sector);
    FittingReduction(h, pieces, sector);
    FittingReduction(h, Filled(h, pieces, sector), sector);
  }

  // ---------- fillers for another amount of space ----------

  lemma {:induction false} SumAppend<C>(a: seq<PieceInfo<C>>, b: seq<PieceInfo<C>>)
    ensures SizeSum(a + b) == SizeSum(a) + SizeSum(b)
  {
    if b == [] {
      assert a + b == a;
    } else {
      assert (a + b)[..|a + b| - 1] == a + b[..|b| - 1];
      SumAppend(a, b[..|b| - 1]);
    }
  }

  /** Appended pieces move the end by at least their sizes. */
  lemma {:induction false} EndAppend<C>(a: seq<PieceInfo<C>>, b: seq<PieceInfo<C>>)
    requires ValidPieces(a) && ValidPieces(b)
    ensures ValidPieces(a + b) && End(a + b) >= End(a) + SizeSum(b)
  {
    if b == [] {
      assert a + b == a;
    } else {
      var init := b[..|b| - 1];
      assert (a + b)[..|a + b| - 1] == a + init;
      EndAppend(a, init);
      AlignUpLeast(End(a + init), Top(b).size);
    }
  }

  lemma {:induction false} FillersSum<C>(h: Hasher<C>, remaining: nat)
    requires |h.zeros| == TABLE_LEVELS && remaining % 128 == 0 && remaining <= TABLE_MAX
    ensures ValidPieces(Fillers(h, remaining)) && SizeSum(Fillers(h, remaining)) == remaining
    decreases remaining
  {
    FillerSizes(remaining);
    if remaining > 0 {
      FillersStep(h, remaining);
      var f := LowBit(remaining);
      FillersSum(h, remaining - f);
      SumAppend([PaddingPiece(h, f)], Fillers(h, remaining - f));
      SumOne(PaddingPiece(h, f));
    }
  }

  lemma {:induction false} SumOne<C>(p: PieceInfo<C>)
    ensures SizeSum([p]) == p.size
  {
    assert [p][..0] == [];
  }

  /** Fillers for the space beyond `used`, which is at most the aligned end, fill the sector exactly when it
      is the aligned end. */
  lemma {:induction false} FillsExactly<C>(h: Hasher<C>, pieces: seq<PieceInfo<C>>, sector: nat, used: nat)
    requires Consistent(h) && Tabled(sector) && ValidPieces(pieces) && used <= sector && used % 128 == 0
    ensures (sector - used) % 128 == 0 && ValidPieces(pieces + Fillers(h, sector - used))
    ensures used < End(pieces) ==> End(pieces + Fillers(h, sector - used)) > sector
    ensures used == End(pieces) ==> End(pieces + Fillers(h, sector - used)) == sector
  {
    PaddedBlocks(sector);
    DifferenceOfMultiples(sector, used, 128);
    FillersSum(h, sector - used);
    EndAppend(pieces, Fillers(h, sector - used));
    if used == End(pieces) { FillersInvisible(h, pieces, sector); }
  }

  lemma {:induction false} SumBlocks<C>(pieces: seq<PieceInfo<C>>)
    requires ValidPieces(pieces)
    ensures SizeSum(pieces) % 128 == 0
  {
    if pieces != [] {
      SumBlocks(pieces[..|pieces| - 1]);
      PaddedBlocks(Top(pieces).size);
      SumOfMultiples(SizeSum(pieces[..|pieces| - 1]), Top(pieces).size, 128);
    }
  }

  /** Fillers for what the raw sizes leave fill the sector exactly when no piece needed alignment. */
  lemma {:induction false} RawRestFills<C>(h: Hasher<C>, pieces: seq<PieceInfo<C>>, sector: nat)
    requires Consistent(h) && Tabled(sector) && ValidPieces(pieces) && SizeSum(pieces) <= sector
    ensures (sector - SizeSum(pieces)) % 128 == 0 && ValidPieces(pieces + Fillers(h, sector - SizeSum(pieces)))
    ensures End(pieces + Fillers(h, sector - SizeSum(pieces))) == sector <==> SizeSum(pieces) == End(pieces)
  {
    SumBlocks(pieces);
    FillsExactly(h, pieces, sector, SizeSum(pieces));
    if pieces != [] { EndBound(pieces); }
  }

  // ---------- the sealer's loops ----------

  lemma {:induction false} NextFiller(remaining: nat)
    requires 0 < remaining <= TABLE_MAX && remaining % 128 == 0
    ensures var size := LowBit(remaining);
            && Tabled(size) && size <= remaining && (remaining - size) % 128 == 0
            && CountOnes(remaining - size) == CountOnes(remaining) - 1
            && LowToHigh(remaining) == [size] + LowToHigh(remaining - size)
  {
    LowBitPadded(remaining);
    LowBitFacts(remaining);
  }

  /** Zero pieces for the remaining unpadded space, one per set bit of its padded size, lowest first. */
  method FillerPieces<C>(h: Hasher<C>, remainingSpace: nat) returns (infos: seq<RawPiece<C>>)
    requires |h.zeros| == TABLE_LEVELS
    requires Padded(remainingSpace) % 128 == 0 && Padded(remainingSpace) <= TABLE_MAX
    ensures |infos| == |Fillers(h, Padded(remainingSpace))|
    ensures forall i :: 0 <= i < |infos| ==>
              infos[i] == RawPiece(Fillers(h, Padded(remainingSpace))[i].commitment,
                                   Unpadded(Fillers(h, Padded(remainingSpace))[i].size))
  {
    var remaining := Padded(remainingSpace);
    var count := CountOnes(remaining);
    ghost var sizes := LowToHigh(remaining);
    FillerSizes(remaining);
    infos := [];
    for k := 0 to count
      invariant 0 <= remaining <= TABLE_MAX && remaining % 128 == 0 && CountOnes(remaining) == count - k
      invariant |infos| == k && sizes[k..] == LowToHigh(remaining)
      invariant forall i :: 0 <= i < k ==> infos[i] == RawPiece(Zero(h, sizes[i]), Unpadded(sizes[i]))
    {
      if remaining == 0 { assert false; }
      NextFiller(remaining);
      var psize := LowBit(remaining);
      assert sizes[k] == sizes[k..][0] == psize && sizes[k + 1..] == sizes[k..][1..];
      remaining := remaining - psize;
      infos := infos + [RawPiece(Zero(h, psize), Unpadded(psize))];
    }
  }

  /** The pieces followed by fillers for the space that is not occupied; `occupied` counts whole unpadded
      blocks.  The sector is filled and its commitment kept if that is where the aligned pieces end. */
  method PadSector<C>(h: Hasher<C>, sector: nat, pieces: seq<PieceInfo<C>>, occupied: nat)
      returns (result: seq<PieceInfo<C>>)
    requires Consistent(h) && Tabled(sector) && ValidPieces(pieces) && occupied % 127 == 0
             && occupied <= Unpadded(sector)
    ensures ValidPieces(result) && pieces <= result && SizeSum(result) == SizeSum(pieces) + sector - Padded(occupied)
    ensures Padded(occupied) == End(pieces) ==> End(result) == sector
    ensures Padded(occupied) < End(pieces) ==> End(result) > sector
    ensures Padded(occupied) == End(pieces) && pieces != []
            ==> ReducePieces(h, sector, result) == ReducePieces(h, sector, pieces)
  {
    ghost var used := OccupiedSpace(sector, occupied);
    var raw := FillerPieces(h, Unpadded(sector) - occupied);
    FillersBack(h, sector - used, raw);
    result := pieces + FromRaw(raw);
    PaddedOut(h, sector, pieces, used, result);
  }

  lemma {:induction false} PaddedOut<C>(h: Hasher<C>, sector: nat, pieces: seq<PieceInfo<C>>, used: nat,
                                        result: seq<PieceInfo<C>>)
    requires Consistent(h) && Tabled(sector) && ValidPieces(pieces) && used <= sector && used % 128 == 0
             && (sector - used) % 128 == 0
    requires result == pieces + Fillers(h, sector - used)
    ensures ValidPieces(result) && pieces <= result && SizeSum(result) == SizeSum(pieces) + sector - used
    ensures used == End(pieces) ==> End(result) == sector
    ensures used < End(pieces) ==> End(result) > sector
    ensures used == End(pieces) && pieces != [] ==> ReducePieces(h, sector, result) == ReducePieces(h, sector, pieces)
  {
    FillsExactly(h, pieces, sector, used);
    PaddedSum(h, pieces, sector - used);
    if used == End(pieces) && pieces != [] { KeptCommitment(h, pieces, sector, result); }
  }

  lemma {:induction false} PaddedSum<C>(h: Hasher<C>, pieces: seq<PieceInfo<C>>, remaining: nat)
    requires |h.zeros| == TABLE_LEVELS && remaining % 128 == 0 && remaining <= TABLE_MAX
    ensures SizeSum(pieces + Fillers(h, remaining)) == SizeSum(pieces) + remaining
  {
    FillersSum(h, remaining);
    SumAppend(pieces, Fillers(h, remaining));
  }

  lemma {:induction false} KeptCommitment<C>(h: Hasher<C>, pieces: seq<PieceInfo<C>>, sector: nat,
                                             result: seq<PieceInfo<C>>)
    requires Consistent(h) && Tabled(sector) && pieces != [] && ValidPieces(pieces) && End(pieces) <= sector
    requires (sector - End(pieces)) % 128 == 0 && result == pieces + Fillers(h, sector - End(pieces))
    ensures ValidPieces(result) && End(result) == sector
            && ReducePieces(h, sector, result) == ReducePieces(h, sector, pieces)
  {
    assert result == Filled(h, pieces, sector);
    FillersKeepCommitment(h, pieces, sector);
  }

  predicate Convertible<C>(raw: seq<RawPiece<C>>) {
    forall i :: 0 <= i < |raw| ==> FromArbitrarySize(raw[i].unpadded).Ok?
  }

  function FromRaw<C>(raw: seq<RawPiece<C>>): seq<PieceInfo<C>>
    requires Convertible(raw)
  {
    seq(|raw|, i requires 0 <= i < |raw| => PieceInfo(raw[i].commitment, FromArbitrarySize(raw[i].unpadded).value))
  }

  lemma {:induction false} FillersBack<C>(h: Hasher<C>, remaining: nat, raw: seq<RawPiece<C>>)
    requires |h.zeros| == TABLE_LEVELS && remaining % 128 == 0 && remaining <= TABLE_MAX
    requires |raw| == |Fillers(h, remaining)|
    requires forall i :: 0 <= i < |raw| ==>
               raw[i] == RawPiece(Fillers(h, remaining)[i].commitment, Unpadded(Fillers(h, remaining)[i].size))
    ensures Convertible(raw) && FromRaw(raw) == Fillers(h, remaining)
  {
    FillerSizes(remaining);
    forall i | 0 <= i < |raw| ensures FromArbitrarySize(raw[i].unpadded) == Ok(Fillers(h, remaining)[i].size) {
      FromUnpaddedExact(Fillers(h, remaining)[i].size);
    }
  }

  lemma {:induction false} OccupiedSpace(sector: nat, occupied: nat) returns (used: nat)
    requires IsPadded(sector) && occupied % 127 == 0 && occupied <= Unpadded(sector)
    ensures used == Padded(occupied) <= sector && used % 128 == 0
    ensures Padded(Unpadded(sector) - occupied) == sector - used && (sector - used) % 128 == 0
  {
    PaddedBlocks(sector);
    var k, zero := Euclid(occupied, 127);
    used := 128 * k;
    WholeBlocks(k, occupied);
    UnpaddedSpace(used, sector);
  }

  lemma {:induction false} WholeBlocks(k: nat, u: nat)
    requires u == k * 127
    ensures Padded(u) == 128 * k && Unpadded(128 * k) == u && (128 * k) % 128 == 0
  {
    MultipleMod(k, 127);
    MultipleMod(k, 128);
    assert k * 128 == 128 * k;
  }

  /** Whole blocks survive the trip through unpadded bytes. */
  lemma {:induction false} UnpaddedSpace(used: nat, sector: nat)
    requires used % 128 == 0 && sector % 128 == 0 && used <= sector
    ensures Unpadded(used) <= Unpadded(sector)
    ensures Padded(Unpadded(sector) - Unpadded(used)) == sector - used && (sector - used) % 128 == 0
  {
    var a, b := sector / 128, used / 128;
    assert Unpadded(sector) - Unpadded(used) == 127 * (a - b);
    assert (127 * (a - b)) / 127 == a - b;
  }
}
