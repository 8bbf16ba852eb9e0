/** 32-bit words as bit patterns: the mask helpers over one-hot bit positions, and numeric
    values.  Everything outside this module speaks of words through `Bit`, `High`, `Ones`,
    `Sign` and `Value`. */
module Bits {

  const MAX_BITS: bv32 := 0x4000_0000
  const LOWEST: bv32 := 1
  const NONE: bv32 := 0

  // ----- the mask helpers -----

  function LowerBits(bitPos: bv32): bv32 { bitPos - 1 }
  function HigherBits(bitPos: bv32): bv32 { 0 - bitPos - bitPos }
  function NotHigherBits(bitPos: bv32): bv32 { !HigherBits(bitPos) }
  function BitRange(high: bv32, low: bv32): bv32 { HigherBits(low) & NotHigherBits(high) }

  /** The bits in the range `high..low` on which two numbers differ. */
  function Diff(high: bv32, low: bv32, x: bv32, n: bv32): bv32 { BitRange(high, low) & (x ^ n) }

  function Half(b: bv32): bv32 { b >> 1 }

  /** The two numbers a leaf can hold. */
  function EvenOf(n: bv32): bv32 { n & !1 }
  function OddOf(n: bv32): bv32 { n | 1 }

  // ----- reading a word -----

  function Bit(x: bv32, b: bv32): nat { if x & b == 0 then 0 else 1 }

  predicate HasBit(x: bv32, b: bv32) { Bit(x, b) == 1 }

  function Masked(x: bv32, mask: bv32): bv32 { x & mask }

  /** The bits above position `b`. */
  function High(x: bv32, b: bv32): bv32 { Masked(x, HigherBits(b)) }

  predicate AgreeAbove(x: bv32, y: bv32, b: bv32) { High(x, b) == High(y, b) }

  /** The sign bit of a 32-bit integer. */
  function Sign(x: bv32): nat { Bit(x, 0x8000_0000) }

  predicate NonNegative(x: bv32) { Sign(x) == 0 }

  /** 1 for the one-hot words up to `MAX_BITS`, 0 for all others. */
  function Ones(b: bv32): nat { if b != 0 && b & LowerBits(b) == 0 && b <= MAX_BITS then 1 else 0 }

  predicate OneHot(b: bv32) { Ones(b) == 1 }

  /** The unsigned numeric value. */
  function Value(b: bv32): nat
    decreases b
  {
    if b == 0 then 0 else ShiftSmaller(b); 2 * Value(Half(b)) + Bit(b, 1)
  }

  /** Bit positions that interior nodes branch on; the lowest one belongs to the leaves. */
  predicate BranchBit(b: bv32) { OneHot(b) && Value(b) > 1 }

  // ----- facts about masks, each by bit arithmetic alone -----

  lemma ShiftSmaller(b: bv32)
    ensures b != 0 ==> Half(b) < b
  {
  }

  lemma ShiftZero(b: bv32)
    ensures b != 0 && Bit(b, 1) == 0 ==> Half(b) != 0
  {
  }

  lemma ShiftInjective(a: bv32, b: bv32)
    requires Half(a) == Half(b) && Bit(a, 1) == Bit(b, 1)
    ensures a == b
  {
  }

  lemma EvenOneHot(p: bv32)
    requires OneHot(p) && p != 1
    ensures Bit(p, 1) == 0
  {
  }

  function WithoutSign(m: bv32): bv32 { m & 0x7fff_ffff }

  lemma ShiftMask(p: bv32)
    requires Bit(p, 1) == 0
    ensures Half(HigherBits(p)) == WithoutSign(HigherBits(Half(p)))
  {
  }

  lemma ShiftAnd(a: bv32, m: bv32, m': bv32)
    requires Half(m) == WithoutSign(m')
    ensures Half(Masked(a, m)) == Masked(Half(a), m')
  {
  }

  lemma ShiftHigh(a: bv32, p: bv32)
    requires Bit(p, 1) == 0
    ensures High(Half(a), Half(p)) == Half(High(a, p))
  {
    hide Half, HigherBits, Bit, Masked, WithoutSign;
    ShiftMask(p);
    ShiftAnd(a, HigherBits(p), HigherBits(Half(p)));
  }

  lemma ShiftOneHot(p: bv32)
    requires OneHot(p) && p != 1
    ensures OneHot(Half(p))
  {
  }

  lemma ShiftBit(a: bv32, p: bv32)
    requires OneHot(p) && p != 1
    ensures Bit(Half(a), Half(p)) == Bit(a, p)
  {
  }

  lemma ShiftLast(a: bv32, b: bv32)
    requires High(a, 1) == High(b, 1)
    ensures Half(a) == Half(b)
  {
  }

  lemma HighOneHot(p: bv32)
    requires OneHot(p)
    ensures High(p, p) == 0 && Bit(p, p) == 1
  {
  }

  lemma HighOfLess(p: bv32, q: bv32)
    requires OneHot(p) && OneHot(q) && p < q
    ensures High(p, q) == 0 && Bit(p, q) == 0
  {
  }

  lemma OneHotCompare(p: bv32, q: bv32)
    requires OneHot(p) && OneHot(q)
    ensures p < q || p == q || q < p
  {
  }

  lemma MaxOneHot()
    ensures OneHot(MAX_BITS) && OneHot(LOWEST)
  {
  }

  lemma HighUp(a: bv32, b: bv32, p: bv32, q: bv32)
    requires OneHot(p) && OneHot(q) && p < q && High(a, p) == High(b, p)
    ensures High(a, q) == High(b, q)
  {
  }

  lemma BitUp(a: bv32, b: bv32, p: bv32, q: bv32)
    requires OneHot(p) && OneHot(q) && p < q && High(a, p) == High(b, p)
    ensures Bit(a, q) == Bit(b, q)
  {
  }

  lemma OneHotBits(b: bv32)
    requires OneHot(b)
    ensures b != 0 && b & (b - 1) == 0 && b <= MAX_BITS
  {
  }

  lemma HigherHalfBits(b: bv32)
    requires b != 0 && b & (b - 1) == 0 && b <= MAX_BITS && b != 1
    ensures 0 - (b >> 1) - (b >> 1) == (0 - b - b) | b
  {
  }

  function Joined(h: bv32, b: bv32): bv32 { h | b }
  function Xor(x: bv32, n: bv32): bv32 { x ^ n }
  function Without(m: bv32, h: bv32, d: bv32): bv32 { m & !h & d }

  /** Above half of a position lie the bits above the position, and the position. */
  lemma HigherHalf(b: bv32)
    requires OneHot(b) && b != 1
    ensures HigherBits(Half(b)) == Joined(HigherBits(b), b)
  {
    hide Ones;
    OneHotBits(b);
    HigherHalfBits(b);
  }

  lemma EqualBits(x: bv32, n: bv32, b: bv32)
    requires Bit(x, b) == Bit(n, b) && OneHot(b)
    ensures Masked(Xor(x, n), b) == 0
  {
    hide Ones;
    OneHotBits(b);
    XorBit(x, n, b);
  }

  lemma XorBit(x: bv32, n: bv32, b: bv32)
    requires b & (b - 1) == 0 && (x & b == 0 <==> n & b == 0)
    ensures (x ^ n) & b == 0
  {
  }

  lemma MaskMore(x: bv32, n: bv32, h: bv32, b: bv32)
    requires Masked(x, h) == Masked(n, h) && Masked(Xor(x, n), b) == 0
    ensures Masked(x, Joined(h, b)) == Masked(n, Joined(h, b))
  {
  }

  lemma MaskWithout(m: bv32, h: bv32, b: bv32, d: bv32)
    requires Masked(d, b) == 0
    ensures Without(m, Joined(h, b), d) == Without(m, h, d)
  {
  }

  lemma DiffIs(high: bv32, low: bv32, x: bv32, n: bv32)
    ensures Diff(high, low, x, n) == Without(HigherBits(low), HigherBits(high), Xor(x, n))
  {
    hide HigherBits;
  }

  lemma NotLowest(b: bv32, low: bv32)
    requires OneHot(low) && low < b
    ensures b != 1
  {
  }

  lemma HighHalf(a: bv32, b: bv32, p: bv32)
    requires OneHot(p) && p != 1 && High(a, p) == High(b, p) && Bit(a, p) == Bit(b, p)
    ensures High(a, Half(p)) == High(b, Half(p))
  {
    hide Bit, Ones, HigherBits, Half, Masked, Joined, Xor;
    HigherHalf(p);
    EqualBits(a, b, p);
    MaskMore(a, b, HigherBits(p), p);
  }

  lemma HighNone(a: bv32, b: bv32)
    requires High(a, 1) == High(b, 1) && Bit(a, 1) == Bit(b, 1)
    ensures a == b
  {
  }

  lemma HighTop(a: bv32)
    requires Sign(a) == 0
    ensures High(a, MAX_BITS) == 0
  {
  }

  lemma HigherOne()
    ensures HigherBits(1) == 0xffff_fffe
  {
  }

  lemma EvenMask(n: bv32)
    ensures Masked(EvenOf(n), 0xffff_fffe) == Masked(n, 0xffff_fffe)
  {
  }

  lemma EvenHigh(n: bv32)
    ensures High(EvenOf(n), 1) == High(n, 1)
  {
    hide HigherBits, Masked, EvenOf;
    HigherOne();
    EvenMask(n);
  }

  lemma EvenSign(n: bv32)
    ensures Bit(EvenOf(n), 1) == 0 && Sign(EvenOf(n)) == Sign(n)
  {
  }

  lemma OddMask(n: bv32)
    ensures Masked(OddOf(n), 0xffff_fffe) == Masked(n, 0xffff_fffe)
  {
  }

  lemma OddHigh(n: bv32)
    ensures High(OddOf(n), 1) == High(n, 1)
  {
    hide HigherBits, Masked, OddOf;
    HigherOne();
    OddMask(n);
  }

  lemma OddSign(n: bv32)
    ensures Bit(OddOf(n), 1) == 1 && Sign(OddOf(n)) == Sign(n)
  {
  }

  lemma SkipBits(x: bv32, n: bv32, high: bv32, low: bv32)
    requires High(x, high) == High(n, high) && Diff(high, low, x, n) == 0
    ensures High(x, low) == High(n, low)
  {
  }

  lemma DiffBit(x: bv32, n: bv32, b: bv32, low: bv32)
    requires OneHot(b) && Bit(Diff(b, low, x, n), b) == 1
    ensures Bit(x, b) != Bit(n, b)
  {
  }

  lemma DiffNoBit(x: bv32, n: bv32, b: bv32, low: bv32)
    requires OneHot(b) && OneHot(low) && low < b && Bit(Diff(b, low, x, n), b) == 0
    ensures Bit(x, b) == Bit(n, b)
  {
  }

  lemma DiffHalf(x: bv32, n: bv32, b: bv32, low: bv32)
    requires OneHot(b) && OneHot(low) && low < b && Bit(x, b) == Bit(n, b)
    ensures Diff(Half(b), low, x, n) == Diff(b, low, x, n)
  {
    hide Bit, Ones, HigherBits, Half, Masked, Joined, Xor, Without, Diff;
    NotLowest(b, low);
    HigherHalf(b);
    EqualBits(x, n, b);
    MaskWithout(HigherBits(low), HigherBits(b), b, Xor(x, n));
    DiffIs(b, low, x, n);
    DiffIs(Half(b), low, x, n);
  }

  lemma DiffEmpty(x: bv32, n: bv32, b: bv32)
    ensures Diff(b, b, x, n) == 0
  {
  }

  // ----- facts about values -----

  lemma {:induction false} ValuePositive(b: bv32)
    ensures b != 0 <==> Value(b) > 0
    decreases b
  {
    hide Half, Bit;
    if b != 0 {
      ShiftSmaller(b);
      ShiftZero(b);
      ValuePositive(Half(b));
    }
  }

  function Succ(b: bv32): bv32 { b + 1 }

  lemma SuccEven(b: bv32)
    requires Bit(b, 1) == 0
    ensures Half(Succ(b)) == Half(b) && Bit(Succ(b), 1) == 1 && Succ(b) != 0
  {
  }

  lemma SuccOdd(b: bv32)
    requires Bit(b, 1) != 0 && b != 0xffff_ffff
    ensures Half(Succ(b)) == Succ(Half(b)) && Half(b) != 0xffff_ffff && Bit(Succ(b), 1) == 0 && Succ(b) != 0
  {
  }

  /** Counting one further counts one more: with zero for zero, this is the unsigned number. */
  lemma {:induction false} ValueSucc(b: bv32)
    requires b != 0xffff_ffff
    ensures Value(Succ(b)) == Value(b) + 1
    decreases b
  {
    hide Half, Bit, Succ;
    HalfOfZero();
    BitBound(b, 1);
    if Bit(b, 1) == 0 {
      SuccEven(b);
    } else {
      SuccOdd(b);
      if b != 0 { ShiftSmaller(b); } else { ZeroBit(1); }
      ValueSucc(Half(b));
    }
  }

  lemma HalfOfZero()
    ensures Half(0) == 0
  {
  }

  /** A word with a one shifted in from the right. */
  function Longer(m: bv32): bv32 { (m << 1) | 1 }

  lemma LongerHalf(m: bv32)
    requires m <= 0x7fff_ffff
    ensures Half(Longer(m)) == m && Bit(Longer(m), 1) == 1 && Longer(m) != 0
  {
  }

  lemma ValueOfLonger(m: bv32)
    requires m <= 0x7fff_ffff
    ensures Value(Longer(m)) == 2 * Value(m) + 1
  {
    hide Half, Bit, Longer;
    LongerHalf(m);
  }

  lemma LongerByFour(m: bv32)
    requires m <= 0x0fff_ffff
    ensures Longer(Longer(Longer(Longer(m)))) == (m << 4) | 0xf
    ensures Longer(m) <= 0x1fff_ffff && Longer(Longer(m)) <= 0x3fff_ffff && Longer(Longer(Longer(m))) <= 0x7fff_ffff
  {
  }

  lemma ValueOfFourMore(m: bv32)
    requires m <= 0x0fff_ffff
    ensures Value((m << 4) | 0xf) == 16 * Value(m) + 15
  {
    hide Longer, Value;
    LongerByFour(m);
    ValueOfLonger(m);
    ValueOfLonger(Longer(m));
    ValueOfLonger(Longer(Longer(m)));
    ValueOfLonger(Longer(Longer(Longer(m))));
  }

  lemma ValueOfMax()
    ensures Value(0xffff_ffff) == 0xffff_ffff
  {
    assert Value(0) == 0;
    hide Value;
    ValueOfFourMore(0);
    ValueOfFourMore(0xf);
    ValueOfFourMore(0xff);
    ValueOfFourMore(0xfff);
    ValueOfFourMore(0xffff);
    ValueOfFourMore(0xf_ffff);
    ValueOfFourMore(0xff_ffff);
    ValueOfFourMore(0xfff_ffff);
  }

  function Neg(w: bv32): bv32 { 0 - w }

  lemma NegSucc(w: bv32)
    requires w != 0xffff_ffff
    ensures Neg(w) == Succ(Neg(Succ(w))) && (w != 0 ==> Neg(Succ(w)) != 0xffff_ffff) && Succ(w) != 0
  {
  }

  lemma NegOfMax()
    ensures Neg(0xffff_ffff) == 1
  {
  }

  /** A negated word completes the word to 2^32. */
  lemma {:induction false} ValueOfNeg(w: bv32)
    requires w != 0
    ensures Value(Neg(w)) + Value(w) == 0x1_0000_0000
    decreases Value(Neg(w))
  {
    hide Value, Neg, Succ;
    ValueOfMax();
    ValueOfOne();
    NegOfMax();
    if w != 0xffff_ffff {
      NegSucc(w);
      ValueSucc(w);
      ValueSucc(Neg(Succ(w)));
      ValueOfNeg(Succ(w));
    }
  }

  predicate Single(b: bv32) { b != 0 && b & LowerBits(b) == 0 }

  lemma WithLowest(w: bv32)
    requires Bit(w, 1) == 0
    ensures Half(Joined(w, 1)) == Half(w) && Bit(Joined(w, 1), 1) == 1 && Joined(w, 1) != 0
  {
  }

  lemma WithHigher(w: bv32, b: bv32)
    requires Single(b) && b != 1
    ensures Half(Joined(w, b)) == Joined(Half(w), Half(b)) && Bit(Joined(w, b), 1) == Bit(w, 1) && Joined(w, b) != 0
    ensures Bit(b, 1) == 0 && Single(Half(b)) && Bit(Half(w), Half(b)) == Bit(w, b)
  {
  }

  /** Setting a clear bit adds the value of the bit. */
  lemma {:induction false} ValueWith(w: bv32, b: bv32)
    requires Single(b) && Bit(w, b) == 0
    ensures Value(Joined(w, b)) == Value(w) + Value(b)
    decreases b
  {
    hide Half, Bit, Single, Joined;
    ValueOfOne();
    HalfOfZero();
    ZeroBit(1);
    if b == 1 {
      WithLowest(w);
    } else {
      SingleNotZero(b);
      ShiftSmaller(b);
      WithHigher(w, b);
      ValueWith(Half(w), Half(b));
    }
  }

  lemma SingleNotZero(b: bv32)
    requires Single(b)
    ensures b != 0
  {
  }

  lemma SignParts(w: bv32)
    ensures Single(0x8000_0000) && Neg(0x8000_0000) == 0x8000_0000
    ensures NonNegative(w) ==> Bit(w, 0x8000_0000) == 0
    ensures !NonNegative(w) ==> w == Joined(w & 0x7fff_ffff, 0x8000_0000) && Bit(w & 0x7fff_ffff, 0x8000_0000) == 0
    ensures w != 0 ==> Neg(w) != 0
  {
  }

  lemma ValueBelow(w: bv32)
    ensures Value(w) < 0x1_0000_0000
  {
    assert Value(0) == 0;
    hide Value, Neg;
    SignParts(w);
    if w != 0 {
      ValueOfNeg(w);
      ValuePositive(Neg(w));
    }
  }

  /** The sign bit says in which half of the 32-bit numbers a word is. */
  lemma SignIsValue(w: bv32)
    ensures NonNegative(w) <==> Value(w) < 0x8000_0000
  {
    hide Value, Neg, NonNegative, Joined, Bit, Single;
    SignParts(w);
    ValueOfNeg(0x8000_0000);
    if NonNegative(w) {
      ValueWith(w, 0x8000_0000);
      ValueBelow(Joined(w, 0x8000_0000));
    } else {
      ValueWith(w & 0x7fff_ffff, 0x8000_0000);
    }
  }

  lemma {:induction false} ValueInjective(a: bv32, b: bv32)
    requires Value(a) == Value(b)
    ensures a == b
    decreases a
  {
    hide Half, Bit;
    ValuePositive(a);
    ValuePositive(b);
    if a != 0 && b != 0 {
      ShiftSmaller(a);
      BitBound(a, 1);
      BitBound(b, 1);
      ValueInjective(Half(a), Half(b));
      ShiftInjective(a, b);
    }
  }

  lemma BitBound(x: bv32, b: bv32)
    ensures Bit(x, b) <= 1
  {
  }

  /** The number that has the first bit on which two numbers differ is the larger. */
  lemma {:induction false} ValueOrder(a: bv32, b: bv32, p: bv32)
    requires OneHot(p) && AgreeAbove(a, b, p) && !HasBit(a, p) && HasBit(b, p)
    ensures Value(a) < Value(b)
    decreases p
  {
    hide Half, Bit, Ones, High;
    BitBound(a, p);
    BitBound(a, 1);
    BitBound(b, 1);
    ZeroBit(p);
    if p == 1 {
      ShiftLast(a, b);
    } else {
      ShiftSmaller(p);
      EvenOneHot(p);
      ShiftHigh(a, p);
      ShiftHigh(b, p);
      ShiftOneHot(p);
      ShiftBit(a, p);
      ShiftBit(b, p);
      ValueOrder(Half(a), Half(b), Half(p));
    }
  }

  lemma ZeroBit(p: bv32)
    ensures Bit(0, p) == 0
    ensures OneHot(p) ==> p != 0
  {
  }

  // ----- what the radix tree needs -----

  lemma ValueOfOne()
    ensures Value(LOWEST) == 1 && Value(NONE) == 0 && Half(LOWEST) == NONE
  {
  }

  lemma OneHotValues(p: bv32, q: bv32)
    requires OneHot(p) && OneHot(q)
    ensures Value(p) < Value(q) <==> p < q
    ensures Value(p) == Value(q) <==> p == q
    ensures Value(p) >= 1
  {
    hide Bit, High, Ones, Value;
    OneHotCompare(p, q);
    ValuePositive(p);
    ZeroBit(p);
    HighOneHot(p);
    HighOneHot(q);
    if p < q {
      HighOfLess(p, q);
      ValueOrder(p, q, q);
    } else if q < p {
      HighOfLess(q, p);
      ValueOrder(q, p, p);
    }
  }

  /** A position is the lowest one or one that branches. */
  lemma LeafOrBranch(b: bv32)
    requires OneHot(b)
    ensures BranchBit(b) <==> b != LOWEST
    ensures 1 <= Value(b) && (Value(b) == 1 <==> b == LOWEST)
  {
    hide Bit, High, Ones, Value;
    MaxOneHot();
    ValueOfOne();
    OneHotValues(LOWEST, b);
    OneHotValues(b, LOWEST);
  }

  lemma HalfValue(b: bv32)
    requires b != 0
    ensures Value(Half(b)) < Value(b)
  {
    hide Half, Bit;
    ValuePositive(b);
  }

  lemma Halving(b: bv32)
    requires BranchBit(b)
    ensures OneHot(Half(b)) && 1 <= Value(Half(b)) < Value(b)
  {
    hide Half, Bit, Ones, Value;
    LeafOrBranch(b);
    ShiftOneHot(b);
    ZeroBit(b);
    HalfValue(b);
    LeafOrBranch(Half(b));
  }

  lemma AboveHalf(q: bv32, b: bv32)
    requires OneHot(q) && OneHot(b) && q < b
    ensures !(Half(b) < q)
  {
  }

  lemma HalfBound(q: bv32, b: bv32)
    requires OneHot(q) && BranchBit(b) && Value(q) < Value(b)
    ensures Value(q) <= Value(Half(b))
  {
    hide Half, Bit, Ones, Value;
    OneHotValues(q, b);
    AboveHalf(q, b);
    Halving(b);
    OneHotValues(Half(b), q);
  }

  lemma BelowMax(b: bv32)
    requires OneHot(b)
    ensures Value(b) <= Value(MAX_BITS)
  {
    hide Half, Bit, Value;
    MaxOneHot();
    OneHotValues(b, MAX_BITS);
    OneHotValues(MAX_BITS, b);
  }

  lemma AgreeUp(a: bv32, b: bv32, p: bv32, q: bv32)
    requires AgreeAbove(a, b, p) && OneHot(p) && OneHot(q) && Value(p) < Value(q)
    ensures AgreeAbove(a, b, q) && Bit(a, q) == Bit(b, q)
  {
    hide Bit, Ones, Value, High;
    OneHotValues(p, q);
    HighUp(a, b, p, q);
    BitUp(a, b, p, q);
  }

  lemma AgreeHalf(a: bv32, b: bv32, p: bv32)
    requires BranchBit(p) && AgreeAbove(a, b, p) && Bit(a, p) == Bit(b, p)
    ensures AgreeAbove(a, b, Half(p))
  {
    hide Bit, Ones, Value, High, Half;
    LeafOrBranch(p);
    HighHalf(a, b, p);
  }

  lemma AgreeTop(x: bv32, y: bv32)
    requires NonNegative(x) && NonNegative(y)
    ensures AgreeAbove(x, y, MAX_BITS)
  {
    hide Sign, High;
    HighTop(x);
    HighTop(y);
  }

  lemma LeafBits(x: bv32, n: bv32)
    requires AgreeAbove(x, n, LOWEST)
    ensures x == if HasBit(x, LOWEST) then OddOf(n) else EvenOf(n)
  {
    hide Bit, High, EvenOf, OddOf;
    BitBound(x, LOWEST);
    EvenHigh(n);
    EvenSign(n);
    OddHigh(n);
    OddSign(n);
    if HasBit(x, LOWEST) { HighNone(x, OddOf(n)); } else { HighNone(x, EvenOf(n)); }
  }

  /** The two numbers of a leaf agree with it above the lowest bit, and are in order. */
  lemma LeafNumbers(n: bv32)
    requires NonNegative(n)
    ensures AgreeAbove(EvenOf(n), n, LOWEST) && NonNegative(EvenOf(n))
    ensures AgreeAbove(OddOf(n), n, LOWEST) && NonNegative(OddOf(n))
    ensures Value(EvenOf(n)) < Value(OddOf(n))
  {
    hide Bit, High, EvenOf, OddOf, Sign, Value, Ones;
    EvenHigh(n);
    EvenSign(n);
    OddHigh(n);
    OddSign(n);
    MaxOneHot();
    ValueOrder(EvenOf(n), OddOf(n), LOWEST);
  }

  /** The bits of the range differ nowhere: nodes further down may be reached without branching. */
  lemma SkipRun(x: bv32, n: bv32, high: bv32, low: bv32)
    requires AgreeAbove(x, n, high) && Diff(high, low, x, n) == NONE
    ensures AgreeAbove(x, n, low)
  {
    hide High, Diff;
    SkipBits(x, n, high, low);
  }

  /** One step of the search for the highest differing bit. */
  lemma SearchStep(x: bv32, n: bv32, b: bv32, low: bv32)
    requires OneHot(b) && OneHot(low) && Value(low) < Value(b)
    requires AgreeAbove(x, n, b) && Diff(b, low, x, n) != NONE && !HasBit(Diff(b, low, x, n), b)
    ensures BranchBit(b) && OneHot(Half(b)) && Value(low) < Value(Half(b)) < Value(b)
    ensures AgreeAbove(x, n, Half(b)) && Diff(Half(b), low, x, n) == Diff(b, low, x, n)
  {
    hide Bit, High, Ones, Value, Half, Diff;
    LeafOrBranch(low);
    Halving(b);
    HalfBound(low, b);
    OneHotValues(low, b);
    BitBound(Diff(b, low, x, n), b);
    DiffNoBit(x, n, b, low);
    DiffHalf(x, n, b, low);
    AgreeHalf(x, n, b);
    OneHotValues(low, Half(b));
    DiffEmpty(x, n, low);
  }

  lemma SearchEnd(x: bv32, n: bv32, b: bv32, low: bv32)
    requires OneHot(b) && HasBit(Diff(b, low, x, n), b)
    ensures Bit(x, b) != Bit(n, b)
  {
    hide Bit, Ones, Diff;
    DiffBit(x, n, b, low);
  }

  /** A word stored in memory and read back. */
  lemma StoredWord(b: bv32)
    ensures 0 <= b as int < 0x1_0000_0000 && (b as int) as bv32 == b
  {
  }
}
