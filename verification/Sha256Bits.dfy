/** The word functions of SHA-256 bit by bit. */
module Sha256Bits {
  import opened Sha256Spec

  /** Bit `i`, the lowest first; positions are taken modulo 32. */
  predicate Bit(x: bv32, i: bv5) { x & ((1 as bv32) << i) != 0 }

  /** An odd number of the three. */
  predicate Parity(p: bool, q: bool, r: bool) { (p != q) != r }

  // ----- the operators, written out and then by their names -----

  lemma RawXor3(x: bv32, y: bv32, z: bv32, i: bv5)
    ensures Bit(x ^ y ^ z, i) == Parity(Bit(x, i), Bit(y, i), Bit(z, i))
  {
  }

  lemma Xor3Bit(x: bv32, y: bv32, z: bv32, i: bv5)
    ensures Bit(Xor3(x, y, z), i) == Parity(Bit(x, i), Bit(y, i), Bit(z, i))
  {
    hide Bit;
    RawXor3(x, y, z, i);
  }

  lemma RawRotate2(x: bv32, i: bv5)
    ensures Bit((x >> 2) | (x << 30), i) == Bit(x, i + 2)
  {
  }

  lemma Rotate2(x: bv32, i: bv5)
    ensures Bit(RotateRight(x, 2), i) == Bit(x, i + 2)
  {
    hide Bit;
    RawRotate2(x, i);
  }

  lemma RawRotate6(x: bv32, i: bv5)
    ensures Bit((x >> 6) | (x << 26), i) == Bit(x, i + 6)
  {
  }

  lemma Rotate6(x: bv32, i: bv5)
    ensures Bit(RotateRight(x, 6), i) == Bit(x, i + 6)
  {
    hide Bit;
    RawRotate6(x, i);
  }

  lemma RawRotate7(x: bv32, i: bv5)
    ensures Bit((x >> 7) | (x << 25), i) == Bit(x, i + 7)
  {
  }

  lemma Rotate7(x: bv32, i: bv5)
    ensures Bit(RotateRight(x, 7), i) == Bit(x, i + 7)
  {
    hide Bit;
    RawRotate7(x, i);
  }

  lemma RawRotate11(x: bv32, i: bv5)
    ensures Bit((x >> 11) | (x << 21), i) == Bit(x, i + 11)
  {
  }

  lemma Rotate11(x: bv32, i: bv5)
    ensures Bit(RotateRight(x, 11), i) == Bit(x, i + 11)
  {
    hide Bit;
    RawRotate11(x, i);
  }

  lemma RawRotate13(x: bv32, i: bv5)
    ensures Bit((x >> 13) | (x << 19), i) == Bit(x, i + 13)
  {
  }

  lemma Rotate13(x: bv32, i: bv5)
    ensures Bit(RotateRight(x, 13), i) == Bit(x, i + 13)
  {
    hide Bit;
    RawRotate13(x, i);
  }

  lemma RawRotate17(x: bv32, i: bv5)
    ensures Bit((x >> 17) | (x << 15), i) == Bit(x, i + 17)
  {
  }

  lemma Rotate17(x: bv32, i: bv5)
    ensures Bit(RotateRight(x, 17), i) == Bit(x, i + 17)
  {
    hide Bit;
    RawRotate17(x, i);
  }

  lemma RawRotate18(x: bv32, i: bv5)
    ensures Bit((x >> 18) | (x << 14), i) == Bit(x, i + 18)
  {
  }

  lemma Rotate18(x: bv32, i: bv5)
    ensures Bit(RotateRight(x, 18), i) == Bit(x, i + 18)
  {
    hide Bit;
    RawRotate18(x, i);
  }

  lemma RawRotate19(x: bv32, i: bv5)
    ensures Bit((x >> 19) | (x << 13), i) == Bit(x, i + 19)
  {
  }

  lemma Rotate19(x: bv32, i: bv5)
    ensures Bit(RotateRight(x, 19), i) == Bit(x, i + 19)
  {
    hide Bit;
    RawRotate19(x, i);
  }

  lemma RawRotate22(x: bv32, i: bv5)
    ensures Bit((x >> 22) | (x << 10), i) == Bit(x, i + 22)
  {
  }

  lemma Rotate22(x: bv32, i: bv5)
    ensures Bit(RotateRight(x, 22), i) == Bit(x, i + 22)
  {
    hide Bit;
    RawRotate22(x, i);
  }

  lemma RawRotate25(x: bv32, i: bv5)
    ensures Bit((x >> 25) | (x << 7), i) == Bit(x, i + 25)
  {
  }

  lemma Rotate25(x: bv32, i: bv5)
    ensures Bit(RotateRight(x, 25), i) == Bit(x, i + 25)
  {
    hide Bit;
    RawRotate25(x, i);
  }

  lemma RawShift3(x: bv32, i: bv5)
    ensures Bit(x >> 3, i) == (i < 29 && Bit(x, i + 3))
  {
  }

  lemma Shift3(x: bv32, i: bv5)
    ensures Bit(ShiftRight(x, 3), i) == (i < 29 && Bit(x, i + 3))
  {
    hide Bit;
    RawShift3(x, i);
  }

  lemma RawShift10(x: bv32, i: bv5)
    ensures Bit(x >> 10, i) == (i < 22 && Bit(x, i + 10))
  {
  }

  lemma Shift10(x: bv32, i: bv5)
    ensures Bit(ShiftRight(x, 10), i) == (i < 22 && Bit(x, i + 10))
  {
    hide Bit;
    RawShift10(x, i);
  }

  // ----- the functions of section 4.1.2 -----

  lemma BigSigma0Bits(x: bv32, i: bv5)
    ensures Bit(BigSigma0(x), i) == Parity(Bit(x, i + 2), Bit(x, i + 13), Bit(x, i + 22))
  {
    hide Bit, RotateRight, Xor3;
    Xor3Bit(RotateRight(x, 2), RotateRight(x, 13), RotateRight(x, 22), i);
    Rotate2(x, i);
    Rotate13(x, i);
    Rotate22(x, i);
  }

  lemma BigSigma1Bits(x: bv32, i: bv5)
    ensures Bit(BigSigma1(x), i) == Parity(Bit(x, i + 6), Bit(x, i + 11), Bit(x, i + 25))
  {
    hide Bit, RotateRight, Xor3;
    Xor3Bit(RotateRight(x, 6), RotateRight(x, 11), RotateRight(x, 25), i);
    Rotate6(x, i);
    Rotate11(x, i);
    Rotate25(x, i);
  }

  lemma SmallSigma0Bits(x: bv32, i: bv5)
    ensures Bit(SmallSigma0(x), i) == Parity(Bit(x, i + 7), Bit(x, i + 18), i < 29 && Bit(x, i + 3))
  {
    hide Bit, RotateRight, ShiftRight, Xor3;
    Xor3Bit(RotateRight(x, 7), RotateRight(x, 18), ShiftRight(x, 3), i);
    Rotate7(x, i);
    Rotate18(x, i);
    Shift3(x, i);
  }

  lemma SmallSigma1Bits(x: bv32, i: bv5)
    ensures Bit(SmallSigma1(x), i) == Parity(Bit(x, i + 17), Bit(x, i + 19), i < 22 && Bit(x, i + 10))
  {
    hide Bit, RotateRight, ShiftRight, Xor3;
    Xor3Bit(RotateRight(x, 17), RotateRight(x, 19), ShiftRight(x, 10), i);
    Rotate17(x, i);
    Rotate19(x, i);
    Shift10(x, i);
  }

  lemma RawCh(x: bv32, y: bv32, z: bv32, i: bv5)
    ensures Bit((x & y) ^ (!x & z), i) == if Bit(x, i) then Bit(y, i) else Bit(z, i)
  {
  }

  /** Where x has a bit, the bit of y, and elsewhere that of z. */
  lemma ChBits(x: bv32, y: bv32, z: bv32, i: bv5)
    ensures Bit(Ch(x, y, z), i) == if Bit(x, i) then Bit(y, i) else Bit(z, i)
  {
    hide Bit;
    RawCh(x, y, z, i);
  }

  lemma RawAnd(x: bv32, y: bv32, i: bv5)
    ensures Bit(x & y, i) == (Bit(x, i) && Bit(y, i))
  {
  }

  /** The bit that at least two of them have. */
  lemma MajBits(x: bv32, y: bv32, z: bv32, i: bv5)
    ensures Bit(Maj(x, y, z), i) == if Bit(x, i) == Bit(y, i) then Bit(x, i) else Bit(z, i)
  {
    hide Bit, Xor3;
    Xor3Bit(x & y, x & z, y & z, i);
    RawAnd(x, y, i);
    RawAnd(x, z, i);
    RawAnd(y, z, i);
  }
}
