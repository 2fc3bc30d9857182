/** 64-bit words as bit sets. The operations carry names so that proofs can work on the names. */
module Word64 {

  const TOP: bv64 := 0x8000_0000_0000_0000
  const FULL: bv64 := 0xFFFF_FFFF_FFFF_FFFF

  predicate OneHot(m: bv64) { m != 0 && m & (m - 1) == 0 }

  predicate Has(w: bv64, m: bv64) { w & m != 0 }

  /** No bit of `w` lies below the one-bit word `m`. */
  predicate LowZero(w: bv64, m: bv64) { w & (m - 1) == 0 }

  predicate Disjoint(m: bv64, n: bv64) { m & n == 0 }

  function Twice(m: bv64): bv64 { m << 1 }

  function With(w: bv64, m: bv64): bv64 { w | m }

  function Without(w: bv64, m: bv64): bv64 { w & !m }

  function Flip(w: bv64): bv64 { !w }

  /** The word with its lowest set bit cleared. */
  function ClearLow(w: bv64): bv64 { w & (w - 1) }

  /** 1 << i. */
  function Mask(i: nat): bv64 { if i == 0 then 1 else Twice(Mask(i - 1)) }

  // ── Facts about single words ───────────────────────────────────

  lemma TwiceOneHot(m: bv64)
    requires OneHot(m) && m != TOP
    ensures OneHot(Twice(m)) && m < Twice(m)
  {
  }

  lemma OneHotNonZero(m: bv64)
    requires OneHot(m)
    ensures m != 0
  {
  }

  lemma TwiceZero()
    ensures Twice(TOP) == 0 && Twice(0) == 0
  {
  }

  lemma OneHotDisjoint(m: bv64, n: bv64)
    requires OneHot(m) && OneHot(n)
    ensures m != n <==> Disjoint(m, n)
  {
  }

  lemma OrSame(w: bv64, m: bv64)
    requires m != 0
    ensures Has(With(w, m), m)
  {
  }

  lemma OrOther(w: bv64, m: bv64, n: bv64)
    requires Disjoint(m, n)
    ensures Has(With(w, m), n) <==> Has(w, n)
  {
  }

  lemma AndNotSame(w: bv64, m: bv64)
    ensures !Has(Without(w, m), m)
  {
  }

  lemma AndNotOther(w: bv64, m: bv64, n: bv64)
    requires Disjoint(m, n)
    ensures Has(Without(w, m), n) <==> Has(w, n)
  {
  }

  lemma NotTest(w: bv64, n: bv64)
    requires n != 0 && n & (n - 1) == 0
    ensures !w & n != 0 <==> w & n == 0
  {
  }

  lemma HasFlip(w: bv64, n: bv64)
    requires OneHot(n)
    ensures Has(Flip(w), n) <==> !Has(w, n)
  {
    NotTest(w, n);
  }

  lemma ClearLowIs(w: bv64, m: bv64)
    requires OneHot(m) && Has(w, m) && LowZero(w, m)
    ensures ClearLow(w) == Without(w, m)
  {
  }

  lemma LowZeroOne(w: bv64)
    ensures LowZero(w, 1)
  {
  }

  lemma LowZeroStep(w: bv64, m: bv64)
    requires OneHot(m) && !Has(w, m) && LowZero(w, m)
    ensures LowZero(w, Twice(m))
  {
  }

  lemma TopOrRest(w: bv64)
    requires !Has(w, TOP) && LowZero(w, TOP)
    ensures w == 0
  {
  }

  lemma ZeroHasNone(m: bv64)
    ensures !Has(0, m)
  {
  }

  lemma FullHasAll(m: bv64)
    requires OneHot(m)
    ensures Has(FULL, m)
  {
  }

  // ── The 64 one-bit words ───────────────────────────────────────

  lemma {:induction false} ZeroStays(i: nat, j: nat)
    requires i <= j && Mask(i) == 0
    ensures Mask(j) == 0
    decreases j
  {
    if i < j {
      ZeroStays(i, j - 1);
      TwiceZero();
    }
  }

  function Quad(m: bv64): bv64 { m << 4 }

  lemma TwiceFour(m: bv64)
    ensures Twice(Twice(Twice(Twice(m)))) == Quad(m)
  {
  }

  lemma FourMore(i: nat)
    ensures Mask(i + 4) == Quad(Mask(i))
  {
    assert Mask(i + 2) == Twice(Twice(Mask(i)));
    assert Mask(i + 4) == Twice(Twice(Mask(i + 2)));
    TwiceFour(Mask(i));
  }

  lemma QuadValues()
    ensures Quad(0x1) == 0x10 && Quad(0x10) == 0x100 && Quad(0x100) == 0x1000 && Quad(0x1000) == 0x1_0000
    ensures Quad(0x1_0000) == 0x10_0000 && Quad(0x10_0000) == 0x100_0000 && Quad(0x100_0000) == 0x1000_0000
    ensures Quad(0x1000_0000) == 0x1_0000_0000 && Quad(0x1_0000_0000) == 0x10_0000_0000
    ensures Quad(0x10_0000_0000) == 0x100_0000_0000 && Quad(0x100_0000_0000) == 0x1000_0000_0000
    ensures Quad(0x1000_0000_0000) == 0x1_0000_0000_0000 && Quad(0x1_0000_0000_0000) == 0x10_0000_0000_0000
    ensures Quad(0x10_0000_0000_0000) == 0x100_0000_0000_0000 && Quad(0x100_0000_0000_0000) == 0x1000_0000_0000_0000
    ensures Twice(Twice(Twice(0x1000_0000_0000_0000))) == TOP
  {
  }

  lemma MaskTop()
    ensures Mask(63) == TOP
  {
    QuadValues();
    FourMore(0);
    FourMore(4);
    FourMore(8);
    FourMore(12);
    FourMore(16);
    FourMore(20);
    FourMore(24);
    FourMore(28);
    FourMore(32);
    FourMore(36);
    FourMore(40);
    FourMore(44);
    FourMore(48);
    FourMore(52);
    FourMore(56);
    assert Mask(62) == Twice(Twice(Mask(60)));
  }

  lemma {:induction false} MaskOneHot(i: nat)
    requires i < 64
    ensures OneHot(Mask(i)) && (i < 63 ==> Mask(i) != TOP)
  {
    if i > 0 {
      MaskOneHot(i - 1);
      TwiceOneHot(Mask(i - 1));
    }
    if i < 63 && Mask(i) == TOP {
      TwiceZero();
      ZeroStays(i + 1, 63);
      MaskTop();
    }
  }

  lemma {:induction false} MaskGrows(i: nat, j: nat)
    requires i < j < 64
    ensures Mask(i) < Mask(j)
    decreases j
  {
    MaskOneHot(j - 1);
    TwiceOneHot(Mask(j - 1));
    if i < j - 1 { MaskGrows(i, j - 1); }
  }

  lemma MaskFacts(i: nat, j: nat)
    requires i < 64 && j < 64
    ensures OneHot(Mask(i)) && OneHot(Mask(j))
    ensures i == j <==> Mask(i) == Mask(j)
    ensures i != j <==> Disjoint(Mask(i), Mask(j))
  {
    MaskOneHot(i);
    MaskOneHot(j);
    if i < j { MaskGrows(i, j); }
    if j < i { MaskGrows(j, i); }
    OneHotDisjoint(Mask(i), Mask(j));
  }

  // ── The lowest set bit ─────────────────────────────────────────

  predicate Bit(w: bv64, i: nat) { Has(w, Mask(i)) }

  lemma {:induction false} LowPartClear(w: bv64, i: nat)
    requires i < 64 && forall j | 0 <= j < i :: !Bit(w, j)
    ensures LowZero(w, Mask(i))
    decreases i
  {
    if i > 0 {
      LowPartClear(w, i - 1);
      MaskOneHot(i - 1);
      assert !Bit(w, i - 1);
      LowZeroStep(w, Mask(i - 1));
    } else {
      LowZeroOne(w);
    }
  }

  /** bits.TrailingZeros64: the position of the lowest set bit, 64 for zero. */
  function TrailingZeros(w: bv64, i: nat := 0): (r: nat)
    requires i <= 64
    ensures i <= r <= 64 && (r < 64 ==> Bit(w, r))
    ensures forall j | i <= j < r :: !Bit(w, j)
    decreases 64 - i
  {
    if i == 64 then 64 else if Bit(w, i) then i else TrailingZeros(w, i + 1)
  }

  lemma NoBitIsZero(w: bv64)
    requires TrailingZeros(w) == 64
    ensures w == 0
  {
    LowPartClear(w, 63);
    assert !Bit(w, 63);
    MaskTop();
    TopOrRest(w);
  }

  lemma BitWith(w: bv64, i: nat, b: nat)
    requires i < 64 && b < 64
    ensures Bit(With(w, Mask(i)), b) <==> b == i || Bit(w, b)
  {
    MaskFacts(i, b);
    if i == b {
      OneHotNonZero(Mask(i));
      OrSame(w, Mask(i));
    } else {
      OrOther(w, Mask(i), Mask(b));
    }
  }

  lemma BitWithout(w: bv64, i: nat, b: nat)
    requires i < 64 && b < 64
    ensures Bit(Without(w, Mask(i)), b) <==> b != i && Bit(w, b)
  {
    if i == b {
      AndNotSame(w, Mask(i));
    } else {
      MaskFacts(i, b);
      AndNotOther(w, Mask(i), Mask(b));
    }
  }

  lemma BitClearLow(w: bv64, i: nat)
    requires TrailingZeros(w) < 64 && i < 64
    ensures Bit(ClearLow(w), i) <==> i != TrailingZeros(w) && Bit(w, i)
  {
    var lo := TrailingZeros(w);
    LowPartClear(w, lo);
    MaskOneHot(lo);
    ClearLowIs(w, Mask(lo));
    BitWithout(w, lo, i);
  }

  // ── Words as sets of positions ─────────────────────────────────

  ghost function BitsOf(w: bv64): set<int> { set b | 0 <= b < 64 && Bit(w, b) }

  const POSITIONS: set<int> := set b | 0 <= b < 64

  lemma NoBitsOfZero()
    ensures BitsOf(0) == {}
  {
    forall b | 0 <= b < 64 ensures !Bit(0, b) { ZeroHasNone(Mask(b)); }
  }

  lemma LowestInBits(w: bv64)
    requires w != 0
    ensures TrailingZeros(w) < 64 && TrailingZeros(w) in BitsOf(w)
  {
    if TrailingZeros(w) == 64 { NoBitIsZero(w); }
  }

  lemma BitsOfZero(w: bv64)
    ensures w == 0 <==> BitsOf(w) == {}
  {
    if w == 0 { NoBitsOfZero(); } else { LowestInBits(w); }
  }

  lemma BitsOfFull()
    ensures BitsOf(FULL) == POSITIONS
  {
    forall b | 0 <= b < 64 ensures Bit(FULL, b) {
      MaskOneHot(b);
      FullHasAll(Mask(b));
    }
  }

  lemma BitsOfFlip(w: bv64)
    ensures BitsOf(Flip(w)) == POSITIONS - BitsOf(w)
  {
    forall b | 0 <= b < 64 ensures Bit(Flip(w), b) != Bit(w, b) {
      MaskOneHot(b);
      HasFlip(w, Mask(b));
    }
  }

  lemma BitsOfWith(w: bv64, i: nat)
    requires i < 64
    ensures BitsOf(With(w, Mask(i))) == BitsOf(w) + {i}
  {
    forall b | 0 <= b < 64 ensures Bit(With(w, Mask(i)), b) <==> b == i || Bit(w, b) { BitWith(w, i, b); }
  }

  lemma BitsOfWithout(w: bv64, i: nat)
    requires i < 64
    ensures BitsOf(Without(w, Mask(i))) == BitsOf(w) - {i}
  {
    forall b | 0 <= b < 64 ensures Bit(Without(w, Mask(i)), b) <==> b != i && Bit(w, b) { BitWithout(w, i, b); }
  }

  lemma BitsOfClearLow(w: bv64)
    requires w != 0
    ensures TrailingZeros(w) in BitsOf(w) && forall b :: b in BitsOf(w) ==> TrailingZeros(w) <= b
    ensures BitsOf(ClearLow(w)) == BitsOf(w) - {TrailingZeros(w)}
  {
    LowestInBits(w);
    forall b | 0 <= b < 64 ensures Bit(ClearLow(w), b) <==> b != TrailingZeros(w) && Bit(w, b) { BitClearLow(w, b); }
  }

  /** One turn of a lowest-bit loop: the lowest position and the word without it. */
  method PopLowest(w: bv64) returns (b: nat, rest: bv64)
    requires BitsOf(w) != {}
    ensures b < 64 && b in BitsOf(w) && (forall c :: c in BitsOf(w) ==> b <= c)
    ensures BitsOf(rest) == BitsOf(w) - {b}
  {
    BitsOfZero(w);
    BitsOfClearLow(w);
    b := TrailingZeros(w);
    rest := ClearLow(w);
  }

  // ── Shifting left ──────────────────────────────────────────────

  /** w << n. */
  function ShiftLeft(w: bv64, n: nat): bv64 { if n == 0 then w else Twice(ShiftLeft(w, n - 1)) }

  lemma TwiceHasTwice(w: bv64, m: bv64)
    requires m & TOP == 0
    ensures Has(Twice(w), Twice(m)) <==> Has(w, m)
  {
  }

  lemma TwiceHasNoOne(w: bv64)
    ensures !Has(Twice(w), 1)
  {
  }

  lemma BitTwice(w: bv64, b: nat)
    requires b < 64
    ensures Bit(Twice(w), b) <==> b > 0 && Bit(w, b - 1)
  {
    if b == 0 {
      TwiceHasNoOne(w);
    } else {
      MaskOneHot(b - 1);
      NotTop(Mask(b - 1));
      TwiceHasTwice(w, Mask(b - 1));
    }
  }

  lemma NotTop(m: bv64)
    requires OneHot(m) && m != TOP
    ensures m & TOP == 0
  {
  }

  lemma {:induction false} BitShiftLeft(w: bv64, n: nat, b: nat)
    requires b < 64
    ensures Bit(ShiftLeft(w, n), b) <==> b >= n && Bit(w, b - n)
    decreases n
  {
    if n > 0 {
      BitTwice(ShiftLeft(w, n - 1), b);
      if b > 0 { BitShiftLeft(w, n - 1, b - 1); }
    }
  }
}
