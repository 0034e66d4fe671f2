/** The data commitment of a sector (primitives/src/commitment/commd.rs): a stack of pieces on
    which equal neighbours are joined, with zero pieces pushed where alignment needs them. */
module Commd {
  import opened Arith
  import opened PieceSize
  import opened Results
  import opened Layout

  datatype CommDError = InvalidPieceSize | PieceSizeTooLarge | TooManyPieces

  datatype SectorSize = S2KiB | S8MiB | S512MiB | S32GiB | S64GiB {
    function Bytes(): nat {
      match this
      case S2KiB => 2048
      case S8MiB => 8388608
      case S512MiB => 536870912
      case S32GiB => 34359738368
      case S64GiB => 68719476736
    }
  }

  function PaddingPiece<C>(h: Hasher<C>, size: nat): PieceInfo<C>
    requires |h.zeros| == TABLE_LEVELS && Tabled(size)
  {
    PieceInfo(Zero(h, size), size)
  }

  function JoinPieceInfos<C>(h: Hasher<C>, left: PieceInfo<C>, right: PieceInfo<C>): Result<PieceInfo<C>, CommDError> {
    if left.size != right.size then Err(InvalidPieceSize)
    else Ok(PieceInfo(h.join(left.commitment, right.commitment), left.size + right.size))
  }

  function Top<C>(st: seq<PieceInfo<C>>): PieceInfo<C>
    requires st != []
  {
    st[|st| - 1]
  }

  // ---------- the stack as a value ----------

  function ReduceStack<C>(h: Hasher<C>, st: seq<PieceInfo<C>>): seq<PieceInfo<C>>
    decreases |st|
  {
    var n := |st|;
    if n >= 2 && st[n - 1].size == st[n - 2].size then
      ReduceStack(h, JoinTop(h, st))
    else st
  }

  /** Valid sizes, each strictly smaller than those below it. */
  ghost predicate Reduced<C>(st: seq<PieceInfo<C>>) {
    ValidPieces(st) && forall i, j :: 0 <= i < j < |st| ==> st[i].size > st[j].size
  }

  /** Reduced except that the top may equal its neighbour. */
  ghost predicate NearlyReduced<C>(st: seq<PieceInfo<C>>) {
    && st != [] && Reduced(st[..|st| - 1]) && IsPadded(Top(st).size)
    && (|st| >= 2 ==> Top(st).size <= st[|st| - 2].size)
  }

  lemma {:induction false} SumPush<C>(st: seq<PieceInfo<C>>, p: PieceInfo<C>)
    ensures SizeSum(st + [p]) == SizeSum(st) + p.size
  {
    assert (st + [p])[..|st|] == st;
  }

  /** The stack after joining its two top entries. */
  function JoinTop<C>(h: Hasher<C>, st: seq<PieceInfo<C>>): seq<PieceInfo<C>>
    requires |st| >= 2 && st[|st| - 1].size == st[|st| - 2].size
  {
    st[..|st| - 2] + [JoinPieceInfos(h, st[|st| - 2], st[|st| - 1]).value]
  }

  lemma {:induction false} JoinTopNearly<C>(h: Hasher<C>, st: seq<PieceInfo<C>>)
    requires NearlyReduced(st) && |st| >= 2 && st[|st| - 1].size == st[|st| - 2].size
    ensures NearlyReduced(JoinTop(h, st)) && Top(JoinTop(h, st)).size == 2 * Top(st).size
  {
    var n, s, st' := |st|, Top(st).size, JoinTop(h, st);
    var init := st[..n - 1];
    PaddedDouble(s);
    assert st'[..n - 2] == init[..n - 2];
    if n >= 3 {
      assert init[n - 3].size > init[n - 2].size;
      PaddedDivides(s, init[n - 3].size);
    }
  }

  lemma {:induction false} JoinTopSum<C>(h: Hasher<C>, st: seq<PieceInfo<C>>)
    requires |st| >= 2 && st[|st| - 1].size == st[|st| - 2].size
    ensures SizeSum(JoinTop(h, st)) == SizeSum(st)
  {
    var n := |st|;
    SumPush(st[..n - 2], JoinPieceInfos(h, st[n - 2], st[n - 1]).value);
    assert st[..n - 1][..n - 2] == st[..n - 2];
  }

  lemma {:induction false} NearlyIsReduced<C>(st: seq<PieceInfo<C>>)
    requires NearlyReduced(st) && (|st| >= 2 ==> Top(st).size != st[|st| - 2].size)
    ensures Reduced(st)
  {
    var n := |st|;
    var init := st[..n - 1];
    assert forall i :: 0 <= i < n - 1 ==> init[i] == st[i];
    forall i, j | 0 <= i < j < n ensures st[i].size > st[j].size {
      if j < n - 1 { assert init[i].size > init[j].size; }
      else if i < n - 2 { assert init[i].size > init[n - 2].size; }
    }
  }

  /** Joining keeps the total, restores strict order and never makes the top smaller. */
  lemma {:induction false} ReduceFacts<C>(h: Hasher<C>, st: seq<PieceInfo<C>>)
    requires NearlyReduced(st)
    ensures var r := ReduceStack(h, st);
            r != [] && Reduced(r) && SizeSum(r) == SizeSum(st) && Top(r).size >= Top(st).size
    ensures |st| >= 2 && Top(st).size == st[|st| - 2].size ==> Top(ReduceStack(h, st)).size >= 2 * Top(st).size
    decreases |st|
  {
    if |st| >= 2 && Top(st).size == st[|st| - 2].size {
      JoinTopNearly(h, st);
      JoinTopSum(h, st);
      ReduceFacts(h, JoinTop(h, st));
    } else {
      NearlyIsReduced(st);
    }
  }

  lemma {:induction false} PushNearly<C>(st: seq<PieceInfo<C>>, p: PieceInfo<C>)
    requires Reduced(st) && IsPadded(p.size) && (st != [] ==> p.size <= Top(st).size)
    ensures NearlyReduced(st + [p])
  {
    assert (st + [p])[..|st|] == st;
  }

  /** Push zero pieces the size of the top until the top is at least `size`. */
  function PadTo<C>(h: Hasher<C>, st: seq<PieceInfo<C>>, size: nat): seq<PieceInfo<C>>
    requires |h.zeros| == TABLE_LEVELS && st != [] && Reduced(st) && Tabled(size)
    decreases size - Top(st).size
  {
    if Top(st).size >= size then st else
    var padding := PaddingPiece(h, Top(st).size);
    PushNearly(st, padding);
    ReduceFacts(h, st + [padding]);
    PadTo(h, ReduceStack(h, st + [padding]), size)
  }

  lemma {:induction false} PadToFacts<C>(h: Hasher<C>, st: seq<PieceInfo<C>>, size: nat)
    requires |h.zeros| == TABLE_LEVELS && st != [] && Reduced(st) && Tabled(size)
    ensures var r := PadTo(h, st, size); r != [] && Reduced(r) && Top(r).size >= size
    decreases size - Top(st).size
  {
    if Top(st).size < size {
      var padding := PaddingPiece(h, Top(st).size);
      PushNearly(st, padding);
      ReduceFacts(h, st + [padding]);
      PadToFacts(h, ReduceStack(h, st + [padding]), size);
    }
  }

  function PushPiece<C>(h: Hasher<C>, st: seq<PieceInfo<C>>, piece: PieceInfo<C>): (r: seq<PieceInfo<C>>)
    requires |h.zeros| == TABLE_LEVELS && Reduced(st) && Tabled(piece.size)
    ensures r != [] && Reduced(r)
  {
    if st == [] then [piece] else
    PadToFacts(h, st, piece.size);
    PushNearly(PadTo(h, st, piece.size), piece);
    ReduceFacts(h, PadTo(h, st, piece.size) + [piece]);
    ReduceStack(h, PadTo(h, st, piece.size) + [piece])
  }

  ghost predicate TabledPieces<C>(pieces: seq<PieceInfo<C>>) {
    forall i :: 0 <= i < |pieces| ==> Tabled(pieces[i].size)
  }

  function PushPieces<C>(h: Hasher<C>, pieces: seq<PieceInfo<C>>): (r: seq<PieceInfo<C>>)
    requires |h.zeros| == TABLE_LEVELS && TabledPieces(pieces)
    ensures Reduced(r) && (pieces != [] ==> r != [])
  {
    if pieces == [] then [] else PushPiece(h, PushPieces(h, pieces[..|pieces| - 1]), Top(pieces))
  }

  // ---------- a reduced stack is a binary number ----------

  /** All sizes at least m makes the total a multiple of m. */
  lemma {:induction false} SumMultiple<C>(st: seq<PieceInfo<C>>, m: nat)
    requires ValidPieces(st) && IsPadded(m) && forall i :: 0 <= i < |st| ==> st[i].size >= m
    ensures SizeSum(st) % m == 0
  {
    if st != [] {
      var init := st[..|st| - 1];
      SumMultiple(init, m);
      PaddedDivides(m, Top(st).size);
      SumOfMultiples(SizeSum(init), Top(st).size, m);
    }
  }

  /** The top is the lowest digit of the total. */
  lemma {:induction false} LowestDigit<C>(st: seq<PieceInfo<C>>)
    requires st != [] && Reduced(st)
    ensures SizeSum(st) % Top(st).size == 0
    ensures SizeSum(st[..|st| - 1]) % (2 * Top(st).size) == 0
  {
    var s, init := Top(st).size, st[..|st| - 1];
    PaddedDouble(s);
    forall i | 0 <= i < |init| ensures init[i].size >= 2 * s {
      assert st[i].size > s;
      PaddedDivides(s, st[i].size);
    }
    SumMultiple(init, 2 * s);
    MultipleMod(2, s);
    ModTrans(SizeSum(init), 2 * s, s);
    SumOfMultiples(SizeSum(init), s, s);
  }

  /** A reduced stack whose total is a multiple of a size larger than its top does not exist. */
  lemma {:induction false} TopBelow<C>(st: seq<PieceInfo<C>>, f: nat)
    requires st != [] && Reduced(st) && IsPadded(f) && Top(st).size < f
    ensures SizeSum(st) % f != 0
  {
    var s, rest := Top(st).size, SizeSum(st[..|st| - 1]);
    LowestDigit(st);
    PaddedDivides(s, f);
    if SizeSum(st) % f == 0 {
      ModTrans(SizeSum(st), f, 2 * s);
      var k := rest / (2 * s);
      assert rest == k * (2 * s);
      assert SizeSum(st) == k * (2 * s) + s;
      DivUnique(k, 2 * s, s);
      assert false;
    }
  }

  /** Bit by bit: a size is on the stack exactly when that bit of the total is set. */
  lemma {:induction false} StackIsBinary<C>(st: seq<PieceInfo<C>>, s: nat)
    requires Reduced(st) && IsPadded(s)
    ensures BitSet(SizeSum(st), s) <==> OnStack(st, s)
  {
    if st != [] {
      var init, a := st[..|st| - 1], Top(st).size;
      StackIsBinary(init, s);
      LowestDigit(st);
      AddedBit(SizeSum(init), a, s);
      OnStackTop(st, s);
    } else {
      assert 0 / s == 0;
    }
  }

  ghost predicate BitSet(n: nat, s: nat)
    requires s > 0
  {
    (n / s) % 2 == 1
  }

  ghost predicate OnStack<C>(st: seq<PieceInfo<C>>, s: nat) {
    exists i :: 0 <= i < |st| && st[i].size == s
  }

  lemma {:induction false} OnStackTop<C>(st: seq<PieceInfo<C>>, s: nat)
    requires Reduced(st) && st != []
    ensures OnStack(st, s) <==> s == Top(st).size || (s > Top(st).size && OnStack(st[..|st| - 1], s))
  {
    var init := st[..|st| - 1];
    assert forall i :: 0 <= i < |init| ==> init[i] == st[i] && st[i].size > Top(st).size;
    if i :| 0 <= i < |st| && st[i].size == s && i < |init| { assert init[i].size == s; }
  }

  lemma {:induction false} AddedBit(rest: nat, a: nat, s: nat)
    requires IsPadded(a) && IsPadded(s) && rest % (2 * a) == 0
    ensures BitSet(rest + a, s) <==> s == a || (s > a && BitSet(rest, s))
  {
    var k, zero := Euclid(rest, 2 * a);
    if s == a {
      OddMultiple(rest, a, k);
    } else if s < a {
      PaddedDivides(s, a);
      LowerBit(rest, a, k, s);
    } else {
      PaddedDivides(a, s);
      CarryFree(rest, a, s);
    }
  }

  lemma {:induction false} LowerBit(rest: nat, a: nat, k: nat, s: nat)
    requires s > 0 && a % (2 * s) == 0 && rest == k * (2 * a)
    ensures !BitSet(rest + a, s)
  {
    var b, zero := Euclid(a, 2 * s);
    var c := (2 * k + 1) * b;
    assert rest + a == (2 * k + 1) * a;
    assert (2 * k + 1) * (b * (2 * s)) == (2 * c) * s;
    EvenMultiple(rest + a, c, s);
  }

  lemma {:induction false} OddMultiple(rest: nat, a: nat, k: nat)
    requires a > 0 && rest == k * (2 * a)
    ensures BitSet(rest + a, a)
  {
    assert rest + a == (2 * k + 1) * a;
    MultipleMod(2 * k + 1, a);
  }

  lemma {:induction false} EvenMultiple(n: nat, c: nat, s: nat)
    requires s > 0 && n == (2 * c) * s
    ensures !BitSet(n, s)
  {
    MultipleMod(2 * c, s);
  }

  /** Adding a into a number whose digits are all at or above 2a carries into nothing. */
  lemma {:induction false} CarryFree(rest: nat, a: nat, s: nat)
    requires a > 0 && s > 0 && s % (2 * a) == 0 && rest % (2 * a) == 0
    ensures (rest + a) / s == rest / s
  {
    var d, zero := Euclid(s, 2 * a);
    var x, zero' := Euclid(rest, 2 * a);
    var q, e := Euclid(x, d);
    SplitMultiple(q, d, e, 2 * a);
    MulOrder(e, d - 1, 2 * a);
    MulOrder(d, d - 1, 2 * a);
    DivBy(rest, q, s, e * (2 * a));
    DivBy(rest + a, q, s, e * (2 * a) + a);
  }

  lemma {:induction false} SplitMultiple(q: nat, d: nat, e: nat, m: nat)
    ensures (q * d + e) * m == q * (d * m) + e * m
  {
    assert (q * d) * m == q * (d * m);
  }

  // ---------- what the stack stands for ----------

  /** No piece has x strictly inside it. */
  ghost predicate Clean<C>(layout: seq<Placed<C>>, x: nat) {
    forall i :: 0 <= i < |layout| ==> layout[i].offset >= x || layout[i].offset + layout[i].piece.size <= x
  }

  /** The stack tiles [0, total) from the bottom up, each entry being the root over its tile. */
  ghost predicate Tiles<C>(h: Hasher<C>, st: seq<PieceInfo<C>>, layout: seq<Placed<C>>, total: nat)
    requires |h.zeros| == TABLE_LEVELS
    decreases |st|
  {
    if st == [] then total == 0 else
    var size := Top(st).size;
    && size <= total <= TABLE_MAX && IsPadded(size)
    && Clean(layout, total - size)
    && Top(st).commitment == Root(h, layout, size, total - size)
    && Tiles(h, st[..|st| - 1], layout, total - size)
  }

  lemma {:induction false} TilesSum<C>(h: Hasher<C>, st: seq<PieceInfo<C>>, layout: seq<Placed<C>>, total: nat)
    requires |h.zeros| == TABLE_LEVELS && Tiles(h, st, layout, total)
    ensures SizeSum(st) == total
    decreases |st|
  {
    if st != [] { TilesSum(h, st[..|st| - 1], layout, total - Top(st).size); }
  }

  lemma {:induction false} TilesPush<C>(h: Hasher<C>, st: seq<PieceInfo<C>>, p: PieceInfo<C>,
                                        layout: seq<Placed<C>>, total: nat, next: seq<PieceInfo<C>>, more: nat)
    requires |h.zeros| == TABLE_LEVELS && Tiles(h, st, layout, total)
    requires IsPadded(p.size) && more == total + p.size <= TABLE_MAX && Clean(layout, total)
    requires p.commitment == Root(h, layout, p.size, total) && next == st + [p]
    ensures Tiles(h, next, layout, more)
  {
    assert next[..|st|] == st;
  }

  /** The two top entries of a stack apart from what lies below them. */
  lemma {:induction false} TopTwo<C>(h: Hasher<C>, st: seq<PieceInfo<C>>)
      returns (below: seq<PieceInfo<C>>, l: PieceInfo<C>, r: PieceInfo<C>)
    requires |st| >= 2 && st[|st| - 1].size == st[|st| - 2].size
    ensures st == below + [l] + [r] && l.size == r.size && JoinTop(h, st) == below + [JoinPieceInfos(h, l, r).value]
  {
    below, l, r := st[..|st| - 2], st[|st| - 2], st[|st| - 1];
  }

  lemma {:induction false} JoinTopTiles<C>(h: Hasher<C>, st: seq<PieceInfo<C>>, layout: seq<Placed<C>>, total: nat)
    requires Consistent(h) && Tiles(h, st, layout, total)
    requires |st| >= 2 && st[|st| - 1].size == st[|st| - 2].size
    ensures Tiles(h, JoinTop(h, st), layout, total)
  {
    var below, l, r := TopTwo(h, st);
    JoinPushedTiles(h, below, l, r, layout, total, st, JoinTop(h, st));
  }

  lemma {:induction false} JoinPushedTiles<C>(h: Hasher<C>, below: seq<PieceInfo<C>>, l: PieceInfo<C>, r: PieceInfo<C>,
                                              layout: seq<Placed<C>>, total: nat, st: seq<PieceInfo<C>>,
                                              joined: seq<PieceInfo<C>>)
    requires Consistent(h) && l.size == r.size && st == below + [l] + [r] && Tiles(h, st, layout, total)
    requires joined == below + [JoinPieceInfos(h, l, r).value]
    ensures Tiles(h, joined, layout, total)
  {
    var seam := PushedTile(h, below + [l], r, layout, total);
    var base := PushedTile(h, below, l, layout, seam);
    JoinTiles(h, below, l, r, layout, base, seam, joined, total);
  }

  /** The top entry covers the range from its base to the total. */
  lemma {:induction false} PushedTile<C>(h: Hasher<C>, below: seq<PieceInfo<C>>, l: PieceInfo<C>,
                                         layout: seq<Placed<C>>, total: nat)
      returns (base: nat)
    requires |h.zeros| == TABLE_LEVELS && Tiles(h, below + [l], layout, total)
    ensures Tabled(l.size) && total == base + l.size <= TABLE_MAX && Clean(layout, base)
    ensures l.commitment == Root(h, layout, l.size, base)
    ensures Tiles(h, below, layout, base)
  {
    TopTile(h, below + [l], layout, total);
    assert (below + [l])[..|below|] == below;
    base := total - l.size;
  }

  lemma {:induction false} JoinTiles<C>(h: Hasher<C>, below: seq<PieceInfo<C>>, l: PieceInfo<C>, r: PieceInfo<C>,
                                        layout: seq<Placed<C>>, base: nat, seam: nat, joined: seq<PieceInfo<C>>,
                                        total: nat)
    requires Consistent(h) && Tiles(h, below, layout, base) && Clean(layout, base) && Clean(layout, seam)
    requires l.size == r.size && Tabled(l.size) && seam == base + l.size && total == seam + r.size <= TABLE_MAX
    requires l.commitment == Root(h, layout, l.size, base) && r.commitment == Root(h, layout, r.size, seam)
    requires joined == below + [JoinPieceInfos(h, l, r).value]
    ensures Tiles(h, joined, layout, total)
  {
    JoinRoots(h, layout, l.size, base, seam);
    TilesPush(h, below, JoinPieceInfos(h, l, r).value, layout, base, joined, total);
  }

  lemma {:induction false} TopTile<C>(h: Hasher<C>, st: seq<PieceInfo<C>>, layout: seq<Placed<C>>, total: nat)
    requires |h.zeros| == TABLE_LEVELS && st != [] && Tiles(h, st, layout, total)
    ensures Tabled(Top(st).size) && Top(st).size <= total <= TABLE_MAX && Clean(layout, total - Top(st).size)
    ensures Top(st).commitment == Root(h, layout, Top(st).size, total - Top(st).size)
    ensures Tiles(h, st[..|st| - 1], layout, total - Top(st).size)
  {
  }

  /** Two equal neighbours with a clean seam are the halves of the range they cover. */
  lemma {:induction false} JoinRoots<C>(h: Hasher<C>, layout: seq<Placed<C>>, s: nat, base: nat, seam: nat)
    requires Consistent(h) && IsPadded(s) && 2 * s <= TABLE_MAX && seam == base + s && Clean(layout, seam)
    ensures IsPadded(2 * s)
    ensures Root(h, layout, 2 * s, base) == h.join(Root(h, layout, s, base), Root(h, layout, s, seam))
  {
    PaddedDouble(s);
    assert forall i :: !Sits(layout, i, 2 * s, base);
    RootSplit(h, layout, 2 * s, base);
    assert (2 * s) / 2 == s;
  }

  lemma {:induction false} ReduceTiles<C>(h: Hasher<C>, st: seq<PieceInfo<C>>, layout: seq<Placed<C>>, total: nat,
                                          r: seq<PieceInfo<C>>)
    requires Consistent(h) && Tiles(h, st, layout, total) && r == ReduceStack(h, st)
    ensures Tiles(h, r, layout, total)
    decreases |st|
  {
    if |st| >= 2 && st[|st| - 1].size == st[|st| - 2].size {
      JoinTopTiles(h, st, layout, total);
      ReduceTiles(h, JoinTop(h, st), layout, total, r);
    }
  }

  /** All pieces end at or before x. */
  ghost predicate EndsBy<C>(layout: seq<Placed<C>>, x: nat) {
    forall i :: 0 <= i < |layout| ==> layout[i].offset + layout[i].piece.size <= x
  }

  /** Beyond the last piece a padding piece is what the layout has there. */
  lemma {:induction false} PadTiles<C>(h: Hasher<C>, st: seq<PieceInfo<C>>, layout: seq<Placed<C>>, total: nat)
    requires Consistent(h) && st != [] && Reduced(st) && Tiles(h, st, layout, total)
    requires EndsBy(layout, total) && total + Top(st).size <= TABLE_MAX
    ensures var next := ReduceStack(h, st + [PaddingPiece(h, Top(st).size)]);
            && next != [] && Reduced(next) && Tiles(h, next, layout, total + Top(st).size)
            && Top(next).size >= 2 * Top(st).size
  {
    var padding := PaddingPiece(h, Top(st).size);
    RootVacant(h, layout, padding.size, total);
    TilesPush(h, st, padding, layout, total, st + [padding], total + padding.size);
    PushNearly(st, padding);
    ReduceFacts(h, st + [padding]);
    ReduceTiles(h, st + [padding], layout, total + padding.size, ReduceStack(h, st + [padding]));
  }

  /** Padding towards a grid point at or above the total does not step over it. */
  lemma {:induction false} RoomForPadding<C>(st: seq<PieceInfo<C>>, goal: nat)
    requires st != [] && Reduced(st) && goal % Top(st).size == 0 && SizeSum(st) < goal
    ensures SizeSum(st) + Top(st).size <= goal
  {
    LowestDigit(st);
    var s := Top(st).size;
    if SizeSum(st) + s > goal {
      SameGrid(SizeSum(st), goal, s);
      assert false;
    }
  }

  /** One round of padding; r is what all rounds together give. */
  lemma {:induction false} PadToStep<C>(h: Hasher<C>, st: seq<PieceInfo<C>>, size: nat, r: seq<PieceInfo<C>>)
      returns (next: seq<PieceInfo<C>>)
    requires |h.zeros| == TABLE_LEVELS && st != [] && Reduced(st) && Tabled(size) && r == PadTo(h, st, size)
    requires Top(st).size < size
    ensures Tabled(Top(st).size) && next == ReduceStack(h, st + [PaddingPiece(h, Top(st).size)])
    ensures next != [] && Reduced(next) && r == PadTo(h, next, size)
  {
    var padding := PaddingPiece(h, Top(st).size);
    PushNearly(st, padding);
    ReduceFacts(h, st + [padding]);
    next := ReduceStack(h, st + [padding]);
  }

  /** The total once padded is a multiple of the size if the top is large enough. */
  lemma {:induction false} OnGrid<C>(st: seq<PieceInfo<C>>, size: nat)
    requires st != [] && Reduced(st) && IsPadded(size) && Top(st).size >= size
    ensures SizeSum(st) % size == 0
  {
    LowestDigit(st);
    PaddedDivides(size, Top(st).size);
    ModTrans(SizeSum(st), Top(st).size, size);
  }

  lemma {:induction false} RoomBelow<C>(st: seq<PieceInfo<C>>, size: nat, goal: nat)
    requires st != [] && Reduced(st) && IsPadded(size) && Top(st).size < size && goal % size == 0 && SizeSum(st) <= goal
    ensures SizeSum(st) + Top(st).size <= goal
  {
    var s := Top(st).size;
    PaddedDivides(s, size);
    ModTrans(goal, size, s);
    if SizeSum(st) == goal { TopBelow(st, size); } else { RoomForPadding(st, goal); }
  }

  lemma {:induction false} PadToTiles<C>(h: Hasher<C>, st: seq<PieceInfo<C>>, layout: seq<Placed<C>>, total: nat,
                                         size: nat, goal: nat, r: seq<PieceInfo<C>>)
    requires Consistent(h) && st != [] && Reduced(st) && Tiles(h, st, layout, total) && EndsBy(layout, total)
    requires Tabled(size) && goal % size == 0 && total <= goal <= TABLE_MAX
    requires forall y: nat :: y >= total && y % size == 0 ==> goal <= y
    requires r == PadTo(h, st, size)
    ensures Tiles(h, r, layout, goal)
    decreases size - Top(st).size
  {
    TilesSum(h, st, layout, total);
    if Top(st).size >= size {
      OnGrid(st, size);
    } else {
      RoomBelow(st, size, goal);
      var next := PadToStep(h, st, size, r);
      PadTiles(h, st, layout, total);
      PadToTiles(h, next, layout, total + Top(st).size, size, goal, r);
    }
  }

  lemma {:induction false} TilesAppend<C>(h: Hasher<C>, st: seq<PieceInfo<C>>, layout: seq<Placed<C>>, total: nat,
                                          p: Placed<C>)
    requires |h.zeros| == TABLE_LEVELS && Tiles(h, st, layout, total) && total <= p.offset
    requires Distinct(layout) && Distinct(layout + [p])
    ensures Tiles(h, st, layout + [p], total)
    decreases |st|
  {
    if st != [] {
      var size := Top(st).size;
      RootAppend(h, layout, p, size, total - size);
      TilesAppend(h, st[..|st| - 1], layout, total - size, p);
    }
  }

  lemma {:induction false} EndMonotone<C>(pieces: seq<PieceInfo<C>>)
    requires ValidPieces(pieces) && pieces != []
    ensures End(pieces[..|pieces| - 1]) <= End(pieces) && Top(pieces).size <= End(pieces)
  {
    AlignUpLeast(End(pieces[..|pieces| - 1]), Top(pieces).size);
  }

  lemma {:induction false} EndTables<C>(pieces: seq<PieceInfo<C>>)
    requires ValidPieces(pieces) && End(pieces) <= TABLE_MAX
    ensures TabledPieces(pieces)
  {
    if pieces != [] {
      EndMonotone(pieces);
      EndTables(pieces[..|pieces| - 1]);
      assert forall i :: 0 <= i < |pieces| - 1 ==> pieces[..|pieces| - 1][i] == pieces[i];
    }
  }

  /** Adding the pieces one by one tiles exactly the aligned layout of the pieces. */
  lemma {:induction false} PushPiecesTile<C>(h: Hasher<C>, pieces: seq<PieceInfo<C>>)
    requires Consistent(h) && ValidPieces(pieces) && End(pieces) <= TABLE_MAX && TabledPieces(pieces)
    ensures Tiles(h, PushPieces(h, pieces), Place(pieces), End(pieces))
  {
    if pieces != [] {
      var init, p := pieces[..|pieces| - 1], Top(pieces);
      EndMonotone(pieces);
      PushPiecesTile(h, init);
      AlignUpLeast(End(init), p.size);
      PlaceEnds(init);
      PlaceEnds(pieces);
      PushPieceTiles(h, PushPieces(h, init), Place(init), End(init), p, AlignUp(End(init), p.size));
    }
  }

  lemma {:induction false} PlaceEnds<C>(pieces: seq<PieceInfo<C>>)
    requires ValidPieces(pieces)
    ensures EndsBy(Place(pieces), End(pieces)) && Distinct(Place(pieces))
  {
    PlaceWellFormed(pieces);
  }

  ghost function PaddedFor<C>(h: Hasher<C>, st: seq<PieceInfo<C>>, size: nat): seq<PieceInfo<C>>
    requires |h.zeros| == TABLE_LEVELS && Reduced(st) && Tabled(size)
  {
    if st == [] then st else PadTo(h, st, size)
  }

  lemma {:induction false} PaddedTiles<C>(h: Hasher<C>, st: seq<PieceInfo<C>>, layout: seq<Placed<C>>, total: nat,
                                          size: nat, goal: nat)
    requires Consistent(h) && Reduced(st) && Tiles(h, st, layout, total) && EndsBy(layout, total)
    requires Tabled(size) && goal % size == 0 && total <= goal <= TABLE_MAX
    requires forall y: nat :: y >= total && y % size == 0 ==> goal <= y
    ensures Tiles(h, PaddedFor(h, st, size), layout, goal)
  {
    if st == [] {
      assert 0 % size == 0;
    } else {
      PadToTiles(h, st, layout, total, size, goal, PadTo(h, st, size));
    }
  }

  /** A piece pushed where it is placed stands for itself. */
  lemma {:induction false} PlacedTiles<C>(h: Hasher<C>, st: seq<PieceInfo<C>>, layout: seq<Placed<C>>, p: PieceInfo<C>,
                                          goal: nat)
    requires Consistent(h) && Tiles(h, st, layout, goal) && EndsBy(layout, goal)
    requires Tabled(p.size) && goal + p.size <= TABLE_MAX
    requires Distinct(layout) && Distinct(layout + [Placed(goal, p)])
    ensures Tiles(h, st + [p], layout + [Placed(goal, p)], goal + p.size)
  {
    var placed := Placed(goal, p);
    var more := layout + [placed];
    TilesAppend(h, st, layout, goal, placed);
    assert Sits(more, |layout|, p.size, goal);
    RootSits(h, more, |layout|, p.size, goal);
    assert forall i :: 0 <= i < |layout| ==> more[i] == layout[i];
    TilesPush(h, st, p, more, goal, st + [p], goal + p.size);
  }

  lemma {:induction false} PushPieceTiles<C>(h: Hasher<C>, st: seq<PieceInfo<C>>, layout: seq<Placed<C>>, total: nat,
                                            p: PieceInfo<C>, goal: nat)
    requires Consistent(h) && Reduced(st) && Tiles(h, st, layout, total) && EndsBy(layout, total)
    requires Tabled(p.size) && goal % p.size == 0 && total <= goal && goal + p.size <= TABLE_MAX
    requires forall y: nat :: y >= total && y % p.size == 0 ==> goal <= y
    requires Distinct(layout) && Distinct(layout + [Placed(goal, p)])
    ensures Tiles(h, PushPiece(h, st, p), layout + [Placed(goal, p)], goal + p.size)
  {
    var padded := PaddedFor(h, st, p.size);
    PaddedTiles(h, st, layout, total, p.size, goal);
    PlacedTiles(h, padded, layout, p, goal);
    PushPieceIs(h, st, p);
    ReduceTiles(h, padded + [p], layout + [Placed(goal, p)], goal + p.size, PushPiece(h, st, p));
  }

  lemma {:induction false} PushPieceIs<C>(h: Hasher<C>, st: seq<PieceInfo<C>>, p: PieceInfo<C>)
    requires |h.zeros| == TABLE_LEVELS && Reduced(st) && Tabled(p.size)
    ensures PushPiece(h, st, p) == ReduceStack(h, PaddedFor(h, st, p.size) + [p])
  {
    if st == [] { assert st + [p] == [p]; }
  }

  // ---------- finishing ----------

  /** Below any valid size f that is at least the total and the sector there is room for one more padding piece. */
  lemma {:induction false} RoomToFinish<C>(st: seq<PieceInfo<C>>, sector: nat, f: nat)
    requires st != [] && Reduced(st) && IsPadded(f) && SizeSum(st) <= f && sector <= f
    requires !(|st| == 1 && Top(st).size >= sector)
    ensures SizeSum(st) + Top(st).size <= f
  {
    if SizeSum(st) == f {
      if Top(st).size < f { TopBelow(st, f); }
      assert false;
    }
    PaddedDivides(Top(st).size, f);
    RoomForPadding(st, f);
  }

  /** Pad until a single entry at least as large as the sector is left. */
  function FinishStack<C>(h: Hasher<C>, st: seq<PieceInfo<C>>, sector: nat): PieceInfo<C>
    requires |h.zeros| == TABLE_LEVELS && Tabled(sector)
    requires st != [] && Reduced(st) && SizeSum(st) <= TABLE_MAX
    decreases TABLE_MAX - SizeSum(st)
  {
    if Top(st).size >= sector && |st| == 1 then st[0] else
    TableMaxPower();
    RoomToFinish(st, sector, TABLE_MAX);
    var padding := PaddingPiece(h, Top(st).size);
    PushNearly(st, padding);
    SumPush(st, padding);
    ReduceFacts(h, st + [padding]);
    FinishStack(h, ReduceStack(h, st + [padding]), sector)
  }

  /** One round of finishing; r is what all rounds together give. */
  lemma {:induction false} FinishStep<C>(h: Hasher<C>, st: seq<PieceInfo<C>>, sector: nat, r: PieceInfo<C>)
      returns (next: seq<PieceInfo<C>>)
    requires |h.zeros| == TABLE_LEVELS && Tabled(sector) && st != [] && Reduced(st) && SizeSum(st) <= TABLE_MAX
    requires !(|st| == 1 && Top(st).size >= sector) && r == FinishStack(h, st, sector)
    ensures Tabled(Top(st).size) && next == ReduceStack(h, st + [PaddingPiece(h, Top(st).size)])
    ensures next != [] && Reduced(next) && SizeSum(next) == SizeSum(st) + Top(st).size <= TABLE_MAX
    ensures r == FinishStack(h, next, sector)
  {
    TableMaxPower();
    RoomToFinish(st, sector, TABLE_MAX);
    var padding := PaddingPiece(h, Top(st).size);
    PushNearly(st, padding);
    SumPush(st, padding);
    ReduceFacts(h, st + [padding]);
    next := ReduceStack(h, st + [padding]);
  }

  lemma {:induction false} FinishTiles<C>(h: Hasher<C>, st: seq<PieceInfo<C>>, layout: seq<Placed<C>>, total: nat,
                                          sector: nat, f: nat, r: PieceInfo<C>)
    requires Consistent(h) && Tabled(sector) && st != [] && Reduced(st) && SizeSum(st) <= TABLE_MAX
    requires Tiles(h, st, layout, total) && EndsBy(layout, total)
    requires Tabled(f) && total <= f && sector <= f
    requires r == FinishStack(h, st, sector)
    ensures Tabled(r.size) && sector <= r.size && total <= r.size <= f
    ensures r.commitment == Root(h, layout, r.size, 0)
    decreases TABLE_MAX - total
  {
    TilesSum(h, st, layout, total);
    if Top(st).size >= sector && |st| == 1 {
      TopTile(h, st, layout, total);
      assert st[..0] == [];
    } else {
      RoomToFinish(st, sector, f);
      var next := FinishStep(h, st, sector, r);
      PadTiles(h, st, layout, total);
      FinishTiles(h, next, layout, total + Top(st).size, sector, f, r);
    }
  }

  /** The final piece of the reduction of a non-empty list of pieces. */
  function ReducePieces<C>(h: Hasher<C>, sector: nat, pieces: seq<PieceInfo<C>>): PieceInfo<C>
    requires Consistent(h) && Tabled(sector)
    requires pieces != [] && ValidPieces(pieces) && End(pieces) <= TABLE_MAX
  {
    EndTables(pieces);
    PushPiecesTile(h, pieces);
    TilesSum(h, PushPieces(h, pieces), Place(pieces), End(pieces));
    FinishStack(h, PushPieces(h, pieces), sector)
  }

  /** The reduction returns the root of the perfect tree over the aligned layout, and that tree is
      the smallest one that holds the layout and is at least a sector. */
  lemma {:induction false} ReductionIsRoot<C>(h: Hasher<C>, sector: nat, pieces: seq<PieceInfo<C>>)
    requires Consistent(h) && Tabled(sector)
    requires pieces != [] && ValidPieces(pieces) && End(pieces) <= TABLE_MAX
    ensures var r := ReducePieces(h, sector, pieces);
            && Tabled(r.size) && sector <= r.size && End(pieces) <= r.size
            && r.commitment == Root(h, Place(pieces), r.size, 0)
            && forall q: nat :: Tabled(q) && q >= sector && q >= End(pieces) ==> r.size <= q
  {
    EndTables(pieces);
    PushPiecesTile(h, pieces);
    PlaceEnds(pieces);
    var st := PushPieces(h, pieces);
    TilesSum(h, st, Place(pieces), End(pieces));
    TableMaxPower();
    var r := FinishStack(h, st, sector);
    FinishTiles(h, st, Place(pieces), End(pieces), sector, TABLE_MAX, r);
    forall q: nat | Tabled(q) && q >= sector && q >= End(pieces) ensures r.size <= q {
      FinishTiles(h, st, Place(pieces), End(pieces), sector, q, r);
    }
  }

  /** After any list of pieces the stack sizes are the binary digits of the aligned total. */
  lemma {:induction false} StackDigits<C>(h: Hasher<C>, pieces: seq<PieceInfo<C>>, s: nat)
    requires Consistent(h) && ValidPieces(pieces) && End(pieces) <= TABLE_MAX && TabledPieces(pieces) && IsPadded(s)
    ensures BitSet(End(pieces), s) <==> OnStack(PushPieces(h, pieces), s)
  {
    PushPiecesTile(h, pieces);
    TilesSum(h, PushPieces(h, pieces), Place(pieces), End(pieces));
    StackIsBinary(PushPieces(h, pieces), s);
  }

  /** Computing the commitment from the pieces or from the sector's content gives the same value. */
  lemma {:induction false} ReductionIsMerkle<C>(h: Hasher<C>, sector: nat, pieces: seq<PieceInfo<C>>, chunk: nat -> C)
    requires Consistent(h) && Tabled(sector)
    requires pieces != [] && ValidPieces(pieces) && End(pieces) <= TABLE_MAX
    requires Holds(h, Place(pieces), chunk)
    ensures var r := ReducePieces(h, sector, pieces);
            IsPadded(r.size) && r.commitment == Merkle(h, chunk, r.size, 0)
  {
    ReductionIsRoot(h, sector, pieces);
    PlaceWellFormed(pieces);
    RootIsMerkle(h, Place(pieces), chunk, ReducePieces(h, sector, pieces).size, 0);
  }

  // ---------- the entry point ----------

  function EnsurePieceSizes<C>(sector: SectorSize, pieces: seq<PieceInfo<C>>): Result<(), CommDError> {
    if SizeSum(pieces) > sector.Bytes() then Err(PieceSizeTooLarge)
    else if |pieces| > Unpadded(sector.Bytes()) / MIN_UNPADDED then Err(TooManyPieces)
    else Ok(())
  }

  lemma {:induction false} SectorTabled(sector: SectorSize)
    ensures Tabled(sector.Bytes()) && Tabled(2 * sector.Bytes())
  {
    PowerIsPadded(4); PowerIsPadded(16); PowerIsPadded(22); PowerIsPadded(28); PowerIsPadded(29);
    assert Pow2(12) == 4096;
    assert Pow2(22) == 4194304;
    PaddedDouble(sector.Bytes());
  }

  lemma {:induction false} CountBound<C>(pieces: seq<PieceInfo<C>>)
    requires ValidPieces(pieces)
    ensures MIN_PADDED * |pieces| <= SizeSum(pieces)
  {
    if pieces != [] { CountBound(pieces[..|pieces| - 1]); }
  }

  /** The piece-count test never fires once the sizes fit. */
  lemma {:induction false} SizeCheckSuffices<C>(sector: SectorSize, pieces: seq<PieceInfo<C>>)
    requires ValidPieces(pieces)
    ensures EnsurePieceSizes(sector, pieces)
         == if SizeSum(pieces) <= sector.Bytes() then Ok(()) else Err(PieceSizeTooLarge)
  {
    CountBound(pieces);
    SectorTabled(sector);
    PaddedBlocks(sector.Bytes());
    OddPartOf127(sector.Bytes());
    assert Unpadded(sector.Bytes()) / MIN_UNPADDED == sector.Bytes() / 128;
  }

  /** The tree the reduction builds: the sector, or twice the sector when alignment pushes the
      layout over its end. */
  function TreeSize(sector: SectorSize, end: nat): nat {
    if end <= sector.Bytes() then sector.Bytes() else 2 * sector.Bytes()
  }

  lemma {:induction false} ReductionSize<C>(h: Hasher<C>, sector: SectorSize, pieces: seq<PieceInfo<C>>)
    requires Consistent(h) && pieces != [] && ValidPieces(pieces) && SizeSum(pieces) <= sector.Bytes()
    ensures End(pieces) < 2 * sector.Bytes() && Tabled(sector.Bytes()) && End(pieces) <= TABLE_MAX
    ensures ReducePieces(h, sector.Bytes(), pieces).size == TreeSize(sector, End(pieces))
  {
    EndBound(pieces);
    SectorTabled(sector);
    ReductionIsRoot(h, sector.Bytes(), pieces);
    var r := ReducePieces(h, sector.Bytes(), pieces);
    if r.size > sector.Bytes() { PaddedDivides(sector.Bytes(), r.size); }
  }

  class CommDPieceReduction<C> {
    const h: Hasher<C>
    var pieces: seq<PieceInfo<C>>

    constructor (h: Hasher<C>)
      ensures this.h == h && pieces == []
    {
      this.h := h;
      pieces := [];
    }

    method Reduce()
      modifies this
      ensures pieces == ReduceStack(h, old(pieces))
    {
      while |pieces| >= 2 && pieces[|pieces| - 1].size == pieces[|pieces| - 2].size
        invariant ReduceStack(h, pieces) == ReduceStack(h, old(pieces))
        decreases |pieces|
      {
        var right := pieces[|pieces| - 1];
        var left := pieces[|pieces| - 2];
        pieces := pieces[..|pieces| - 2];
        pieces := pieces + [JoinPieceInfos(h, left, right).value];
      }
    }

    method AddPiece(piece: PieceInfo<C>)
      requires |h.zeros| == TABLE_LEVELS && Reduced(pieces) && Tabled(piece.size)
      modifies this
      ensures pieces == PushPiece(h, old(pieces), piece)
    {
      if pieces == [] {
        pieces := [piece];
        return;
      }
      while pieces[|pieces| - 1].size < piece.size
        invariant pieces != [] && Reduced(pieces)
        invariant PadTo(h, pieces, piece.size) == PadTo(h, old(pieces), piece.size)
        decreases piece.size - Top(pieces).size
      {
        var padding := PaddingPiece(h, pieces[|pieces| - 1].size);
        PushNearly(pieces, padding);
        ReduceFacts(h, pieces + [padding]);
        pieces := pieces + [padding];
        Reduce();
      }
      pieces := pieces + [piece];
      Reduce();
    }

    method AddPieces(items: seq<PieceInfo<C>>)
      requires |h.zeros| == TABLE_LEVELS && TabledPieces(items) && pieces == []
      modifies this
      ensures pieces == PushPieces(h, items)
    {
      for i := 0 to |items|
        invariant pieces == PushPieces(h, items[..i])
      {
        assert items[..i + 1][..i] == items[..i] && Top(items[..i + 1]) == items[i];
        AddPiece(items[i]);
      }
      assert items[..|items|] == items;
    }

    method Finish(sector: nat) returns (commitment: C)
      requires |h.zeros| == TABLE_LEVELS && Tabled(sector)
      requires pieces != [] && Reduced(pieces) && SizeSum(pieces) <= TABLE_MAX
      modifies this
      ensures commitment == FinishStack(h, old(pieces), sector).commitment
    {
      while !(pieces[|pieces| - 1].size >= sector && |pieces| == 1)
        invariant pieces != [] && Reduced(pieces) && SizeSum(pieces) <= TABLE_MAX
        invariant FinishStack(h, pieces, sector) == FinishStack(h, old(pieces), sector)
        decreases TABLE_MAX - SizeSum(pieces)
      {
        TableMaxPower();
        RoomToFinish(pieces, sector, TABLE_MAX);
        var padding := PaddingPiece(h, pieces[|pieces| - 1].size);
        PushNearly(pieces, padding);
        SumPush(pieces, padding);
        ReduceFacts(h, pieces + [padding]);
        pieces := pieces + [padding];
        Reduce();
      }
      commitment := pieces[0].commitment;
      pieces := [];
    }
  }

  /** The unsealed sector commitment: an empty list gives the zero sector, sizes over the sector are
      refused, and otherwise the result is the root over the aligned layout. */
  method ComputeUnsealedSectorCommitment<C>(h: Hasher<C>, sector: SectorSize, pieces: seq<PieceInfo<C>>)
      returns (r: Result<C, CommDError>)
    requires Consistent(h) && ValidPieces(pieces)
    ensures Tabled(sector.Bytes()) && Tabled(TreeSize(sector, End(pieces)))
    ensures pieces == [] ==> r == Ok(Zero(h, sector.Bytes()))
    ensures pieces != [] && SizeSum(pieces) > sector.Bytes() ==> r == Err(PieceSizeTooLarge)
    ensures pieces != [] && SizeSum(pieces) <= sector.Bytes() ==>
              r == Ok(Root(h, Place(pieces), TreeSize(sector, End(pieces)), 0))
  {
    SectorTabled(sector);
    if pieces == [] {
      return Ok(Zero(h, sector.Bytes()));
    }
    SizeCheckSuffices(sector, pieces);
    var check := EnsurePieceSizes(sector, pieces);
    if check.Err? {
      return Err(check.error);
    }
    ReductionSize(h, sector, pieces);
    ReductionIsRoot(h, sector.Bytes(), pieces);
    EndTables(pieces);
    PushPiecesTile(h, pieces);
    TilesSum(h, PushPieces(h, pieces), Place(pieces), End(pieces));
    var reduction := new CommDPieceReduction<C>(h);
    reduction.AddPieces(pieces);
    var commitment := reduction.Finish(sector.Bytes());
    r := Ok(commitment);
  }
}
