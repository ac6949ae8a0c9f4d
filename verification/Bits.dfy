/** Single bits of a 64-bit word, as the bitmask form of a state set uses them. The machine
    operations have names, so that a proof can use their laws without their circuits. */
module Bits {

  type Bits = bv64

  function And(x: Bits, y: Bits): Bits { x & y }

  function Or(x: Bits, y: Bits): Bits { x | y }

  function Double(x: Bits): Bits { x << 1 }

  function Half(x: Bits): Bits { x >> 1 }

  /** x shifted left n places; bits pushed out at the top are lost. */
  function Shl(x: Bits, n: nat): Bits {
    if n == 0 then x else Double(Shl(x, n - 1))
  }

  function Shr(x: Bits, n: nat): Bits {
    if n == 0 then x else Half(Shr(x, n - 1))
  }

  function Bit(n: nat): Bits {
    Shl(1, n)
  }

  predicate Has(v: Bits, n: nat) {
    And(v, Bit(n)) != 0
  }

  // ---------- laws of the machine operations ----------

  const TOP: Bits := 0x8000_0000_0000_0000

  /** x has exactly one bit. */
  predicate Single(x: Bits) {
    x != 0 && x & (x - 1) == 0
  }

  /** The bits below that of x. */
  function Below(x: Bits): Bits {
    x - 1
  }

  lemma SingleDouble(x: Bits)
    requires Single(x) && x != TOP
    ensures Single(Double(x)) && Double(x) > x && Half(Double(x)) == x
  {}

  lemma SinglesDisjoint(x: Bits, y: Bits)
    requires Single(x) && Single(y) && x != y
    ensures And(x, y) == 0
  {}

  lemma SingleMask(v: Bits, x: Bits)
    requires Single(x)
    ensures And(v, x) == 0 || And(v, x) == x
  {}

  lemma OrAnd(v: Bits, x: Bits, y: Bits)
    ensures And(Or(v, x), y) == Or(And(v, y), And(x, y))
  {
    OrAndParts(v, x, y, Or(v, x), And(v, y), And(x, y));
  }

  lemma OrAndParts(v: Bits, x: Bits, y: Bits, vx: Bits, vy: Bits, xy: Bits)
    requires vx == v | x && vy == v & y && xy == x & y
    ensures And(vx, y) == Or(vy, xy)
  {}

  lemma AndCommutes(x: Bits, y: Bits)
    ensures And(x, y) == And(y, x)
  {}

  lemma OrZero(x: Bits, y: Bits)
    ensures Or(x, y) == 0 <==> x == 0 && y == 0
  {}

  lemma AndSelf(x: Bits)
    ensures And(x, x) == x && And(0, x) == 0 && Or(x, 0) == x
  {}

  lemma BelowDoubled(x: Bits)
    requires Single(x) && x != TOP
    ensures Below(Double(x)) == Or(x, Below(x))
  {}

  lemma BelowDouble(v: Bits, w: Bits, x: Bits)
    requires Single(x) && x != TOP
    requires And(v, x) == And(w, x) && And(v, Below(x)) == And(w, Below(x))
    ensures And(v, Below(Double(x))) == And(w, Below(Double(x)))
  {
    hide *;
    BelowDoubled(x);
    OrAnd(x, Below(x), v);
    OrAnd(x, Below(x), w);
    AndCommutes(v, x);
    AndCommutes(w, x);
    AndCommutes(v, Below(x));
    AndCommutes(w, Below(x));
    AndCommutes(v, Or(x, Below(x)));
    AndCommutes(w, Or(x, Below(x)));
  }

  lemma BelowTop(v: Bits, w: Bits)
    requires And(v, TOP) == And(w, TOP) && And(v, Below(TOP)) == And(w, Below(TOP))
    ensures v == w
  {}

  lemma BelowOne(v: Bits)
    ensures And(v, Below(1)) == 0
  {}

  // ---------- the bits at the places 0 to 63 ----------

  lemma LowBits()
    ensures Bit(24) == 0x100_0000
  {
    assert Bit(8) == 0x100;
    assert Bit(16) == 0x1_0000;
  }

  lemma MiddleBits()
    ensures Bit(48) == 0x1_0000_0000_0000
  {
    LowBits();
    assert Bit(32) == 0x1_0000_0000;
    assert Bit(40) == 0x100_0000_0000;
  }

  lemma TopBit()
    ensures Bit(63) == TOP
  {
    MiddleBits();
    assert Bit(56) == 0x100_0000_0000_0000;
  }

  lemma BitNext(n: nat)
    ensures Bit(n + 1) == Double(Bit(n))
  {}

  lemma {:induction false} ZeroStays(n: nat, m: nat)
    requires n <= m && Bit(n) == 0
    ensures Bit(m) == 0
    decreases m
  {
    if n < m { ZeroStays(n, m - 1); }
  }

  /** The top bit is reached at place 63 and not before, and each place has one bit of its own. */
  lemma {:induction false} BitSingle(n: nat)
    requires n < 64
    ensures Single(Bit(n)) && (Bit(n) == TOP <==> n == 63)
    decreases n
  {
    TopBit();
    if n > 0 {
      BitSingle(n - 1);
      SingleDouble(Bit(n - 1));
    }
    if n < 63 && Bit(n) == TOP {
      assert Bit(n + 1) == 0;
      ZeroStays(n + 1, 63);
    }
  }

  lemma {:induction false} BitsIncrease(n: nat, m: nat)
    requires n < m < 64
    ensures Bit(n) < Bit(m)
    decreases m
  {
    BitSingle(m - 1);
    SingleDouble(Bit(m - 1));
    if n < m - 1 { BitsIncrease(n, m - 1); }
  }

  lemma BitsDisjoint(n: nat, m: nat)
    requires n < 64 && m < 64 && n != m
    ensures And(Bit(n), Bit(m)) == 0
  {
    hide Single, Bit;
    BitSingle(n);
    BitSingle(m);
    if n < m { BitsIncrease(n, m); } else { BitsIncrease(m, n); }
    SinglesDisjoint(Bit(n), Bit(m));
  }

  lemma {:induction false} ShlBit(n: nat, k: nat)
    ensures Shl(Bit(n), k) == Bit(n + k)
    decreases k
  {
    hide Double;
    if k > 0 { ShlBit(n, k - 1); }
  }

  lemma {:induction false} ShiftZero(k: nat)
    ensures Shl(0, k) == 0 && Shr(0, k) == 0
    decreases k
  {
    if k > 0 { ShiftZero(k - 1); }
  }

  lemma {:induction false} ShrHalf(x: Bits, k: nat)
    requires k > 0
    ensures Shr(x, k) == Shr(Half(x), k - 1)
    decreases k
  {
    hide Half;
    if k > 1 { ShrHalf(x, k - 1); }
  }

  lemma {:induction false} ShrBit(n: nat, k: nat)
    requires n + k < 64
    ensures Shr(Bit(n + k), k) == Bit(n)
    decreases k
  {
    hide Bit, Half, Double, Single;
    if k > 0 {
      BitSingle(n + k - 1);
      BitNext(n + k - 1);
      SingleDouble(Bit(n + k - 1));
      ShrHalf(Bit(n + k), k);
      ShrBit(n, k - 1);
    }
  }

  /** Or-ing in one bit sets that place and no other. */
  lemma OrBit(v: Bits, m: nat, n: nat)
    requires m < 64 && n < 64
    ensures Has(Or(v, Bit(m)), n) <==> Has(v, n) || n == m
  {
    hide Bit, And, Or, Single;
    BitSingle(n);
    OrAnd(v, Bit(m), Bit(n));
    OrZero(And(v, Bit(n)), And(Bit(m), Bit(n)));
    AndSelf(Bit(n));
    assert Bit(n) != 0 by { BitNonzero(n); }
    if n != m { BitsDisjoint(m, n); }
  }

  lemma BitNonzero(n: nat)
    requires n < 64
    ensures Bit(n) != 0
  {
    BitSingle(n);
  }

  lemma MaskBit(v: Bits, n: nat)
    requires n < 64
    ensures And(v, Bit(n)) == if Has(v, n) then Bit(n) else 0
  {
    hide And, Bit, Single;
    BitSingle(n);
    SingleMask(v, Bit(n));
  }

  lemma NoBits(n: nat)
    ensures !Has(0, n)
  {
    AndSelf(Bit(n));
  }

  /** Words with the same bits are equal: comparing two masks decides equality of sets. */
  lemma SameBits(v: Bits, w: Bits)
    requires forall n: nat :: n < 64 ==> (Has(v, n) <==> Has(w, n))
    ensures v == w
  {
    hide And, Bit, Has, Below;
    SameLowBits(v, w, 63);
    MaskBit(v, 63);
    MaskBit(w, 63);
    TopBit();
    BelowTop(v, w);
  }

  lemma {:induction false} SameLowBits(v: Bits, w: Bits, k: nat)
    requires k < 64
    requires forall n: nat :: n < k ==> (Has(v, n) <==> Has(w, n))
    ensures And(v, Below(Bit(k))) == And(w, Below(Bit(k)))
    decreases k
  {
    hide And, Bit, Has, Below, Single, Double;
    if k > 0 {
      SameLowBits(v, w, k - 1);
      BitSingle(k - 1);
      MaskBit(v, k - 1);
      MaskBit(w, k - 1);
      BelowDouble(v, w, Bit(k - 1));
      BitNext(k - 1);
    } else {
      assert Bit(0) == 1 by { FirstBit(); }
      BelowOne(v);
      BelowOne(w);
    }
  }

  lemma FirstBit()
    ensures Bit(0) == 1
  {}
}
