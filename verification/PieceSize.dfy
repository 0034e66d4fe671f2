/** Padded and unpadded piece sizes (primitives/src/commitment/piece.rs).
    A padded size is 128 times a power of two; every 127 bytes of data take 128 padded bytes. */
module PieceSize {
  import opened Arith
  import opened Results

  const MIN_PADDED: nat := 128
  const MIN_UNPADDED: nat := 127
  const NODE_SIZE: nat := 32

  datatype PaddedSizeError = SizeTooSmall | SizeNotPowerOfTwo | NotAMultipleOfNodeSize

  datatype UnpaddedSizeError = TooSmall | WrongSize

  /** 128, 256, 512, ... */
  predicate IsPadded(n: nat) {
    n == MIN_PADDED || (n > MIN_PADDED && n % 2 == 0 && IsPadded(n / 2))
  }

  /** 1, 2, 4, ... */
  predicate IsPowerOfTwo(n: nat) {
    n == 1 || (n > 1 && n % 2 == 0 && IsPowerOfTwo(n / 2))
  }

  /** The number of set bits of a machine word. */
  function CountOnes(n: nat): nat {
    if n == 0 then 0 else n % 2 + CountOnes(n / 2)
  }

  /** The lowest set bit, that is 1 << trailing_zeros. */
  function LowBit(n: nat): nat
    requires n > 0
  {
    if n % 2 == 1 then 1 else 2 * LowBit(n / 2)
  }

  /** n >> trailing_zeros. */
  function OddPart(n: nat): nat
    requires n > 0
  {
    if n % 2 == 1 then n else OddPart(n / 2)
  }

  function NewPadded(size: nat): Result<nat, PaddedSizeError> {
    if size < MIN_PADDED then Err(SizeTooSmall)
    else if CountOnes(size) != 1 then Err(SizeNotPowerOfTwo)
    else if size % NODE_SIZE != 0 then Err(NotAMultipleOfNodeSize)
    else Ok(size)
  }

  function NewUnpadded(size: nat): Result<nat, UnpaddedSizeError> {
    if size < MIN_UNPADDED then Err(TooSmall)
    else if OddPart(size) != MIN_UNPADDED then Err(WrongSize)
    else Ok(size)
  }

  function Unpadded(p: nat): nat {
    p - p / 128
  }

  function Padded(u: nat): nat {
    u + u / 127
  }

  /** The least power of two at or above n, searching upwards from the power of two p. */
  function PowerFrom(n: nat, p: nat): nat
    requires p > 0
    decreases n - p
  {
    if p >= n then p else PowerFrom(n, 2 * p)
  }

  /** u64::next_power_of_two; zero rounds up to one. */
  function NextPowerOfTwo(n: nat): nat {
    PowerFrom(n, 1)
  }

  /** The source panics exactly where this is an error. */
  function FromArbitrarySize(size: nat): Result<nat, PaddedSizeError> {
    NewPadded(NextPowerOfTwo(Padded(size)))
  }

  // ---------- powers of two ----------

  lemma {:induction false} CountOnesPositive(n: nat)
    requires n > 0
    ensures CountOnes(n) >= 1
  {
    if n % 2 == 0 { CountOnesPositive(n / 2); }
  }

  lemma {:induction false} SingleBit(n: nat)
    ensures CountOnes(n) == 1 <==> IsPowerOfTwo(n)
  {
    if n > 1 {
      SingleBit(n / 2);
      CountOnesPositive(n / 2);
    }
  }

  lemma {:induction false} PaddedIsPower(n: nat)
    ensures IsPadded(n) <==> IsPowerOfTwo(n) && n >= MIN_PADDED
  {
    assert IsPowerOfTwo(128);
    if n > MIN_PADDED {
      PaddedIsPower(n / 2);
      if IsPowerOfTwo(n) { PowerGap(128, n); }
    }
  }

  /** There is no power of two strictly between a power of two and its double. */
  lemma {:induction false} PowerGap(a: nat, b: nat)
    requires IsPowerOfTwo(a) && IsPowerOfTwo(b) && a < b
    ensures 2 * a <= b
  {
    if a > 1 { PowerGap(a / 2, b / 2); }
  }

  /** A padded size is a whole number of 128-byte blocks. */
  lemma {:induction false} PaddedBlocks(n: nat)
    requires IsPadded(n)
    ensures n % 128 == 0
  {
    if n > MIN_PADDED { PaddedBlocks(n / 2); }
  }

  lemma {:induction false} PaddedDouble(n: nat)
    requires IsPadded(n)
    ensures IsPadded(2 * n)
  {
    assert (2 * n) / 2 == n;
  }

  /** Of two padded sizes the smaller divides the larger, and at least twice if they differ. */
  lemma {:induction false} PaddedDivides(s: nat, t: nat)
    requires IsPadded(s) && IsPadded(t) && s <= t
    ensures t % s == 0
    ensures s < t ==> 2 * s <= t && t % (2 * s) == 0
    decreases t
  {
    if s < t {
      if t / 2 < s {
        PaddedDivides(t / 2, s);
        assert false;
      }
      PaddedDivides(s, t / 2);
      var k := (t / 2) / s;
      assert t / 2 == k * s;
      assert t == k * (2 * s);
      MultipleMod(k, 2 * s);
      assert t == (2 * k) * s;
      MultipleMod(2 * k, s);
    }
  }

  // ---------- validation and conversion ----------

  /** A size is accepted exactly when it is 128 times a power of two; the node-size test never fires. */
  lemma {:induction false} NewPaddedAccepts(size: nat)
    ensures NewPadded(size).Ok? <==> IsPadded(size)
    ensures NewPadded(size).Err? ==>
              NewPadded(size).error == if size < MIN_PADDED then SizeTooSmall else SizeNotPowerOfTwo
  {
    SingleBit(size);
    PaddedIsPower(size);
    if IsPadded(size) { NodeMultiple(size); }
  }

  lemma {:induction false} NodeMultiple(size: nat)
    requires IsPadded(size)
    ensures size % NODE_SIZE == 0
  {
    PaddedBlocks(size);
  }

  lemma {:induction false} OddPartOf127(n: nat)
    requires IsPadded(n)
    ensures Unpadded(n) == n / 128 * 127 > 0 && OddPart(Unpadded(n)) == 127
  {
    PaddedBlocks(n);
    if n > MIN_PADDED {
      OddPartOf127(n / 2);
      PaddedBlocks(n / 2);
      assert Unpadded(n) == 2 * Unpadded(n / 2);
    }
  }

  /** Every accepted unpadded size is the unpadded form of an accepted padded size. */
  lemma {:induction false} UnpaddedHasPadded(u: nat)
    requires u > 0 && OddPart(u) == 127
    ensures IsPadded(Padded(u)) && Unpadded(Padded(u)) == u
  {
    if u % 2 == 0 {
      UnpaddedHasPadded(u / 2);
      PaddedBlocks(Padded(u / 2));
      PaddedDouble(Padded(u / 2));
      assert Padded(u) == 2 * Padded(u / 2);
    }
  }

  /** Padding and unpadding are mutual inverses between the two families of valid sizes. */
  lemma {:induction false} PaddingRoundTrip(n: nat)
    ensures NewPadded(n).Ok? ==> NewUnpadded(Unpadded(n)).Ok? && Padded(Unpadded(n)) == n
    ensures NewUnpadded(n).Ok? ==> NewPadded(Padded(n)).Ok? && Unpadded(Padded(n)) == n
  {
    NewPaddedAccepts(n);
    if NewPadded(n).Ok? { OddPartOf127(n); PaddedBlocks(n); }
    if NewUnpadded(n).Ok? { UnpaddedHasPadded(n); NewPaddedAccepts(Padded(n)); }
  }

  lemma {:induction false} PowerFromLeast(n: nat, p: nat)
    requires IsPowerOfTwo(p)
    requires p > 1 ==> p / 2 < n
    ensures var r := PowerFrom(n, p);
            IsPowerOfTwo(r) && r >= n && forall q: nat :: IsPowerOfTwo(q) && q >= n ==> r <= q
    decreases n - p
  {
    if p < n {
      assert (2 * p) / 2 == p;
      PowerFromLeast(n, 2 * p);
    } else {
      forall q: nat | IsPowerOfTwo(q) && q >= n ensures p <= q {
        if q < p { PowerGap(q, p); }
      }
    }
  }

  /** A padded size holds `size` raw bytes exactly when it is at least the Fr32 expansion of them. */
  lemma {:induction false} CapacityTest(size: nat, p: nat)
    requires IsPadded(p)
    ensures Unpadded(p) >= size <==> p >= Padded(size)
  {
    PaddedBlocks(p);
  }

  /** For more than 64 raw bytes the result is the least valid size that holds them; otherwise it panics. */
  lemma {:induction false} FromArbitrarySizeLeast(size: nat)
    ensures FromArbitrarySize(size).Ok? <==> size > 64
    ensures size > 64 ==>
              var p := FromArbitrarySize(size).value;
              && IsPadded(p) && Unpadded(p) >= size
              && forall q: nat :: IsPadded(q) && Unpadded(q) >= size ==> p <= q
  {
    var r := NextPowerOfTwo(Padded(size));
    PowerFromLeast(Padded(size), 1);
    NewPaddedAccepts(r);
    PaddedIsPower(r);
    assert IsPowerOfTwo(64);
    if size > 64 {
      if r < 128 { PowerGap(64, r); assert false; }
      CapacityTest(size, r);
      forall q: nat | IsPadded(q) && Unpadded(q) >= size ensures r <= q {
        CapacityTest(size, q);
        PaddedIsPower(q);
      }
    }
  }

  /** The sealer's detour through unpadded sizes gives back the padded size it started from. */
  lemma {:induction false} FromUnpaddedExact(p: nat)
    requires IsPadded(p)
    ensures FromArbitrarySize(Unpadded(p)) == Ok(p)
  {
    NewPaddedAccepts(p);
    PaddingRoundTrip(p);
    PaddedBlocks(p);
    FromArbitraryOf(Unpadded(p), p);
  }

  lemma {:induction false} FromArbitraryOf(u: nat, p: nat)
    requires IsPadded(p) && Padded(u) == p && Unpadded(p) == u
    ensures FromArbitrarySize(u) == Ok(p)
  {
    FromArbitrarySizeLeast(u);
    CapacityTest(u, FromArbitrarySize(u).value);
  }
}
