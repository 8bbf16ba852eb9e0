/** Where the constants of SHA-256 come from (sections 4.2.2 and 5.3.3 of FIPS 180-4): the first 32 bits of the
    fractional parts of the cube roots of the first 64 primes, and of the square roots of the first eight. */
module Sha256Constants {
  import opened Sha256Spec

  // ----- the first 64 primes -----

  function Product(x: nat, y: nat): nat { x * y }

  ghost predicate Divides(d: nat, n: nat) {
    exists e :: Product(d, e) == n
  }

  ghost predicate Prime(n: nat) {
    n >= 2 && forall d :: 2 <= d < n ==> !Divides(d, n)
  }

  /** How many primes are smaller than `n`. */
  ghost function PrimesBelow(n: nat): nat {
    if n == 0 then 0 else PrimesBelow(n - 1) + if Prime(n - 1) then 1 else 0
  }

  /** The first 64 primes in rows of eight. */
  function PRIMES(row: nat): (p: seq<nat>)
    requires row < 8
    ensures |p| == 8
  {
    match row
    case 0 => [2, 3, 5, 7, 11, 13, 17, 19]
    case 1 => [23, 29, 31, 37, 41, 43, 47, 53]
    case 2 => [59, 61, 67, 71, 73, 79, 83, 89]
    case 3 => [97, 101, 103, 107, 109, 113, 127, 131]
    case 4 => [137, 139, 149, 151, 157, 163, 167, 173]
    case 5 => [179, 181, 191, 193, 197, 199, 211, 223]
    case 6 => [227, 229, 233, 239, 241, 251, 257, 263]
    case _ => [269, 271, 277, 281, 283, 293, 307, 311]
  }

  function PrimeAt(t: nat): nat
    requires t < 64
  {
    PRIMES(t / 8)[t % 8]
  }

  /** Trial division by the primes up to 17. */
  predicate Trial(n: nat) {
    && n >= 2
    && (n % 2 != 0 || n == 2) && (n % 3 != 0 || n == 3) && (n % 5 != 0 || n == 5) && (n % 7 != 0 || n == 7)
    && (n % 11 != 0 || n == 11) && (n % 13 != 0 || n == 13) && (n % 17 != 0 || n == 17)
  }

  predicate SmallPrime(p: nat) { p == 2 || p == 3 || p == 5 || p == 7 || p == 11 || p == 13 || p == 17 }

  lemma TrialBy(n: nat, p: nat)
    requires SmallPrime(p) && Trial(n) && n % p == 0
    ensures n == p
  {
  }

  lemma MultipleSize(p: nat, d: int)
    ensures d > 0 ==> p * d >= p
    ensures d < 0 ==> p * d + p <= 0
  {
  }

  lemma ProductMod(p: nat, x: nat)
    requires p > 0
    ensures Product(p, x) % p == 0
  {
    var n := Product(p, x);
    assert n == p * (n / p) + n % p;
    assert p * (x - n / p) == n % p;
    MultipleSize(p, x - n / p);
  }

  lemma Regroup(p: nat, k: nat, e: nat)
    ensures Product(Product(p, k), e) == Product(p, Product(k, e))
  {
  }

  lemma SmallFactor(m: nat) returns (p: nat, k: nat)
    requires 2 <= m <= 18
    ensures SmallPrime(p) && p <= m && m == Product(p, k)
  {
    p := if m % 2 == 0 then 2 else if m % 3 == 0 then 3 else if m % 5 == 0 then 5 else m;
    k := m / p;
  }

  /** No number from 2 to 18 that is smaller divides a number that passes the trial. */
  lemma SmallDivisor(m: nat, e: nat)
    requires 2 <= m <= 18 && Trial(Product(m, e))
    ensures Product(m, e) <= m
  {
    hide Trial, Product;
    var p, k := SmallFactor(m);
    Regroup(p, k, e);
    ProductMod(p, Product(k, e));
    TrialBy(Product(m, e), p);
  }

  lemma Large(d: nat, e: nat)
    requires d >= 19 && e >= 19
    ensures Product(d, e) >= 361
  {
  }

  lemma Swap(d: nat, e: nat)
    ensures Product(d, e) == Product(e, d)
  {
  }

  lemma SmallQuotient(d: nat, e: nat)
    requires 2 <= d < Product(d, e)
    ensures 2 <= e < Product(d, e)
  {
  }

  lemma TrialDivides(n: nat, d: nat)
    requires Trial(n) && n < 361 && 2 <= d < n
    ensures !Divides(d, n)
  {
    hide Trial, Product;
    if Divides(d, n) {
      var e :| Product(d, e) == n;
      SmallQuotient(d, e);
      if d <= 18 {
        SmallDivisor(d, e);
      } else if e <= 18 {
        Swap(d, e);
        SmallDivisor(e, d);
      } else {
        Large(d, e);
      }
    }
  }

  lemma FailsBy(n: nat) returns (p: nat)
    requires n >= 2 && !Trial(n)
    ensures SmallPrime(p) && n % p == 0 && n != p
  {
    p := if n % 2 == 0 && n != 2 then 2 else if n % 3 == 0 && n != 3 then 3 else if n % 5 == 0 && n != 5 then 5
         else if n % 7 == 0 && n != 7 then 7 else if n % 11 == 0 && n != 11 then 11 else if n % 13 == 0 && n != 13 then 13 else 17;
  }

  lemma ProperFactor(n: nat, p: nat)
    requires SmallPrime(p) && n >= 2 && n % p == 0 && n != p
    ensures p < n && Divides(p, n)
  {
    assert Product(p, n / p) == n;
  }

  /** The trial decides which numbers are prime. */
  lemma TrialCorrect(n: nat)
    requires n < 361
    ensures Prime(n) <==> Trial(n)
  {
    hide Divides, Trial;
    if Trial(n) {
      TrialBounds(n);
      forall d | 2 <= d < n
        ensures !Divides(d, n)
      {
        TrialDivides(n, d);
      }
    } else if n >= 2 {
      var p := FailsBy(n);
      ProperFactor(n, p);
    }
  }

  lemma TrialBounds(n: nat)
    requires Trial(n)
    ensures n >= 2
  {
  }

  /** How many numbers smaller than `n` pass the trial. */
  function Passing(n: nat): nat {
    if n == 0 then 0 else Passing(n - 1) + if Trial(n - 1) then 1 else 0
  }

  lemma {:induction false} PassingArePrimes(n: nat)
    requires n <= 361
    ensures PrimesBelow(n) == Passing(n)
  {
    hide Prime, Trial;
    if n > 0 {
      TrialCorrect(n - 1);
      PassingArePrimes(n - 1);
    }
  }

  lemma {:induction false} NonePassing(p: nat, n: nat)
    requires p < n && Trial(p) && forall k :: p < k < n ==> !Trial(k)
    ensures Passing(n) == Passing(p) + 1
  {
    hide Trial;
    if n > p + 1 {
      NonePassing(p, n - 1);
      assert !Trial(n - 1);
    }
  }

  lemma Rest2(q: nat, r: nat)
    ensures (30 * q + r) % 2 == r % 2
  {
  }

  lemma Rest3(q: nat, r: nat)
    ensures (30 * q + r) % 3 == r % 3
  {
  }

  lemma Rest5(q: nat, r: nat)
    ensures (30 * q + r) % 5 == r % 5
  {
  }

  lemma TrialSmall(n: nat)
    requires Trial(n) && n > 5
    ensures n % 2 != 0 && n % 3 != 0 && n % 5 != 0
  {
  }

  predicate InWheel(r: nat) { r == 1 || r == 7 || r == 11 || r == 13 || r == 17 || r == 19 || r == 23 || r == 29 }

  lemma Wheel(r: nat)
    requires r < 30 && r % 2 != 0 && r % 3 != 0 && r % 5 != 0
    ensures InWheel(r)
  {
  }

  lemma Thirties(n: nat)
    requires Trial(n) && n > 5
    ensures InWheel(n % 30)
  {
    hide Trial, InWheel;
    TrialSmall(n);
    var q, r := n / 30, n % 30;
    Rest2(q, r);
    Rest3(q, r);
    Rest5(q, r);
    assert n == 30 * q + r;
    Wheel(r);
  }

  lemma Composite(n: nat, p: nat)
    requires SmallPrime(p) && n % p == 0 && n != p
    ensures !Trial(n)
  {
  }

  // The numbers that pass the trial, row by row.

  lemma Row0(n: nat)
    requires 2 <= n < 23 && Trial(n)
    ensures n in PRIMES(0)
  {
    assert n == PRIMES(0)[0] || n == PRIMES(0)[1] || n == PRIMES(0)[2] || n == PRIMES(0)[3] ||
      n == PRIMES(0)[4] || n == PRIMES(0)[5] || n == PRIMES(0)[6] || n == PRIMES(0)[7];
  }

  lemma Row1(n: nat)
    requires 23 <= n < 59 && Trial(n)
    ensures n in PRIMES(1)
  {
    hide Trial;
    Thirties(n);
    Composite(49, 7);
    assert n == PRIMES(1)[0] || n == PRIMES(1)[1] || n == PRIMES(1)[2] || n == PRIMES(1)[3] ||
      n == PRIMES(1)[4] || n == PRIMES(1)[5] || n == PRIMES(1)[6] || n == PRIMES(1)[7];
  }

  lemma Row2(n: nat)
    requires 59 <= n < 97 && Trial(n)
    ensures n in PRIMES(2)
  {
    hide Trial;
    Thirties(n);
    Composite(77, 7);
    Composite(91, 7);
    assert n == PRIMES(2)[0] || n == PRIMES(2)[1] || n == PRIMES(2)[2] || n == PRIMES(2)[3] ||
      n == PRIMES(2)[4] || n == PRIMES(2)[5] || n == PRIMES(2)[6] || n == PRIMES(2)[7];
  }

  lemma Row3(n: nat)
    requires 97 <= n < 137 && Trial(n)
    ensures n in PRIMES(3)
  {
    hide Trial;
    Thirties(n);
    Composite(119, 7);
    Composite(121, 11);
    Composite(133, 7);
    assert n == PRIMES(3)[0] || n == PRIMES(3)[1] || n == PRIMES(3)[2] || n == PRIMES(3)[3] ||
      n == PRIMES(3)[4] || n == PRIMES(3)[5] || n == PRIMES(3)[6] || n == PRIMES(3)[7];
  }

  lemma Row4(n: nat)
    requires 137 <= n < 179 && Trial(n)
    ensures n in PRIMES(4)
  {
    hide Trial;
    Thirties(n);
    Composite(143, 11);
    Composite(161, 7);
    Composite(169, 13);
    assert n == PRIMES(4)[0] || n == PRIMES(4)[1] || n == PRIMES(4)[2] || n == PRIMES(4)[3] ||
      n == PRIMES(4)[4] || n == PRIMES(4)[5] || n == PRIMES(4)[6] || n == PRIMES(4)[7];
  }

  lemma Row5(n: nat)
    requires 179 <= n < 227 && Trial(n)
    ensures n in PRIMES(5)
  {
    hide Trial;
    Thirties(n);
    Composite(187, 11);
    Composite(203, 7);
    Composite(209, 11);
    Composite(217, 7);
    Composite(221, 13);
    assert n == PRIMES(5)[0] || n == PRIMES(5)[1] || n == PRIMES(5)[2] || n == PRIMES(5)[3] ||
      n == PRIMES(5)[4] || n == PRIMES(5)[5] || n == PRIMES(5)[6] || n == PRIMES(5)[7];
  }

  lemma Row6(n: nat)
    requires 227 <= n < 269 && Trial(n)
    ensures n in PRIMES(6)
  {
    hide Trial;
    Thirties(n);
    Composite(247, 13);
    Composite(253, 11);
    Composite(259, 7);
    assert n == PRIMES(6)[0] || n == PRIMES(6)[1] || n == PRIMES(6)[2] || n == PRIMES(6)[3] ||
      n == PRIMES(6)[4] || n == PRIMES(6)[5] || n == PRIMES(6)[6] || n == PRIMES(6)[7];
  }

  lemma Row7(n: nat)
    requires 269 <= n < 313 && Trial(n)
    ensures n in PRIMES(7)
  {
    hide Trial;
    Thirties(n);
    Composite(287, 7);
    Composite(289, 17);
    Composite(299, 13);
    Composite(301, 7);
    assert n == PRIMES(7)[0] || n == PRIMES(7)[1] || n == PRIMES(7)[2] || n == PRIMES(7)[3] ||
      n == PRIMES(7)[4] || n == PRIMES(7)[5] || n == PRIMES(7)[6] || n == PRIMES(7)[7];
  }

  /** What follows a row. */
  function RowEnd(row: nat): nat
    requires row < 8
  {
    if row < 7 then PRIMES(row + 1)[0] else 313
  }

  lemma InRow(row: nat, n: nat)
    requires row < 8 && PRIMES(row)[0] <= n < RowEnd(row) && Trial(n)
    ensures n in PRIMES(row)
  {
    hide Trial;
    match row
    case 0 => Row0(n);
    case 1 => Row1(n);
    case 2 => Row2(n);
    case 3 => Row3(n);
    case 4 => Row4(n);
    case 5 => Row5(n);
    case 6 => Row6(n);
    case 7 => Row7(n);
  }

  lemma Ascending(row: nat)
    requires row < 8
    ensures forall i, j :: 0 <= i < j < 8 ==> PRIMES(row)[i] < PRIMES(row)[j]
    ensures PRIMES(row)[7] < RowEnd(row) <= 313
  {
  }

  lemma AllPass(row: nat, i: nat)
    requires row < 8 && i < 8
    ensures Trial(PRIMES(row)[i])
  {
  }

  lemma NextPrime(t: nat, n: nat)
    requires t < 63 && PrimeAt(t) < n < PrimeAt(t + 1)
    ensures !Trial(n)
  {
    hide Trial, PRIMES;
    Ascending(t / 8);
    if Trial(n) {
      InRow(t / 8, n);
    }
  }

  lemma Neighbours(t: nat)
    requires 0 < t < 64
    ensures PrimeAt(t - 1) < PrimeAt(t) && Trial(PrimeAt(t - 1))
  {
    hide Trial, PRIMES;
    AllPass((t - 1) / 8, (t - 1) % 8);
    Ascending((t - 1) / 8);
  }

  lemma {:induction false} PassingAt(t: nat)
    requires t < 64
    ensures Passing(PrimeAt(t)) == t
  {
    hide Trial, PrimeAt, Passing;
    if t == 0 {
      FirstPrime();
    } else {
      PassingAt(t - 1);
      Neighbours(t);
      forall n | PrimeAt(t - 1) < n < PrimeAt(t)
        ensures !Trial(n)
      {
        NextPrime(t - 1, n);
      }
      NonePassing(PrimeAt(t - 1), PrimeAt(t));
    }
  }

  lemma FirstPrime()
    ensures Passing(PrimeAt(0)) == 0
  {
  }

  /** Entry `t` is a prime with exactly `t` smaller ones. */
  lemma PrimeAtCorrect(t: nat)
    requires t < 64
    ensures Prime(PrimeAt(t)) && PrimesBelow(PrimeAt(t)) == t
  {
    hide Prime, Trial, PRIMES;
    AllPass(t / 8, t % 8);
    Ascending(t / 8);
    TrialCorrect(PrimeAt(t));
    PassingArePrimes(PrimeAt(t));
    PassingAt(t);
  }

  // ----- the roots -----

  function Square(x: nat): nat { x * x }
  function Cube(x: nat): nat { x * x * x }

  /** A number with the given whole part and first 32 bits behind the point, times 2^32. */
  function Fixed(whole: nat, fraction: bv32): nat { whole * 0x1_0000_0000 + fraction as int }

  /** The first 32 bits behind the point of the cube root of `n`. */
  ghost predicate CubeRootBits(n: nat, bits: bv32) {
    exists whole :: Cube(Fixed(whole, bits)) <= n * 0x1_0000_0000_0000_0000_0000_0000 < Cube(Fixed(whole, bits) + 1)
  }

  ghost predicate SquareRootBits(n: nat, bits: bv32) {
    exists whole :: Square(Fixed(whole, bits)) <= n * 0x1_0000_0000_0000_0000 < Square(Fixed(whole, bits) + 1)
  }

  lemma CubeRoot(n: nat, bits: bv32, whole: nat)
    requires Cube(Fixed(whole, bits)) <= n * 0x1_0000_0000_0000_0000_0000_0000 < Cube(Fixed(whole, bits) + 1)
    ensures CubeRootBits(n, bits)
  {
  }

  lemma Roots0()
    ensures forall i :: 0 <= i < 8 ==> CubeRootBits(PRIMES(0)[i], K(0)[i])
  {
    hide CubeRootBits;
    CubeRoot(PRIMES(0)[0], K(0)[0], 1);
    CubeRoot(PRIMES(0)[1], K(0)[1], 1);
    CubeRoot(PRIMES(0)[2], K(0)[2], 1);
    CubeRoot(PRIMES(0)[3], K(0)[3], 1);
    CubeRoot(PRIMES(0)[4], K(0)[4], 2);
    CubeRoot(PRIMES(0)[5], K(0)[5], 2);
    CubeRoot(PRIMES(0)[6], K(0)[6], 2);
    CubeRoot(PRIMES(0)[7], K(0)[7], 2);
  }

  lemma Roots1()
    ensures forall i :: 0 <= i < 8 ==> CubeRootBits(PRIMES(1)[i], K(1)[i])
  {
    hide CubeRootBits;
    CubeRoot(PRIMES(1)[0], K(1)[0], 2);
    CubeRoot(PRIMES(1)[1], K(1)[1], 3);
    CubeRoot(PRIMES(1)[2], K(1)[2], 3);
    CubeRoot(PRIMES(1)[3], K(1)[3], 3);
    CubeRoot(PRIMES(1)[4], K(1)[4], 3);
    CubeRoot(PRIMES(1)[5], K(1)[5], 3);
    CubeRoot(PRIMES(1)[6], K(1)[6], 3);
    CubeRoot(PRIMES(1)[7], K(1)[7], 3);
  }

  lemma Roots2()
    ensures forall i :: 0 <= i < 8 ==> CubeRootBits(PRIMES(2)[i], K(2)[i])
  {
    hide CubeRootBits;
    CubeRoot(PRIMES(2)[0], K(2)[0], 3);
    CubeRoot(PRIMES(2)[1], K(2)[1], 3);
    CubeRoot(PRIMES(2)[2], K(2)[2], 4);
    CubeRoot(PRIMES(2)[3], K(2)[3], 4);
    CubeRoot(PRIMES(2)[4], K(2)[4], 4);
    CubeRoot(PRIMES(2)[5], K(2)[5], 4);
    CubeRoot(PRIMES(2)[6], K(2)[6], 4);
    CubeRoot(PRIMES(2)[7], K(2)[7], 4);
  }

  lemma Roots3()
    ensures forall i :: 0 <= i < 8 ==> CubeRootBits(PRIMES(3)[i], K(3)[i])
  {
    hide CubeRootBits;
    CubeRoot(PRIMES(3)[0], K(3)[0], 4);
    CubeRoot(PRIMES(3)[1], K(3)[1], 4);
    CubeRoot(PRIMES(3)[2], K(3)[2], 4);
    CubeRoot(PRIMES(3)[3], K(3)[3], 4);
    CubeRoot(PRIMES(3)[4], K(3)[4], 4);
    CubeRoot(PRIMES(3)[5], K(3)[5], 4);
    CubeRoot(PRIMES(3)[6], K(3)[6], 5);
    CubeRoot(PRIMES(3)[7], K(3)[7], 5);
  }

  lemma Roots4()
    ensures forall i :: 0 <= i < 8 ==> CubeRootBits(PRIMES(4)[i], K(4)[i])
  {
    hide CubeRootBits;
    CubeRoot(PRIMES(4)[0], K(4)[0], 5);
    CubeRoot(PRIMES(4)[1], K(4)[1], 5);
    CubeRoot(PRIMES(4)[2], K(4)[2], 5);
    CubeRoot(PRIMES(4)[3], K(4)[3], 5);
    CubeRoot(PRIMES(4)[4], K(4)[4], 5);
    CubeRoot(PRIMES(4)[5], K(4)[5], 5);
    CubeRoot(PRIMES(4)[6], K(4)[6], 5);
    CubeRoot(PRIMES(4)[7], K(4)[7], 5);
  }

  lemma Roots5()
    ensures forall i :: 0 <= i < 8 ==> CubeRootBits(PRIMES(5)[i], K(5)[i])
  {
    hide CubeRootBits;
    CubeRoot(PRIMES(5)[0], K(5)[0], 5);
    CubeRoot(PRIMES(5)[1], K(5)[1], 5);
    CubeRoot(PRIMES(5)[2], K(5)[2], 5);
    CubeRoot(PRIMES(5)[3], K(5)[3], 5);
    CubeRoot(PRIMES(5)[4], K(5)[4], 5);
    CubeRoot(PRIMES(5)[5], K(5)[5], 5);
    CubeRoot(PRIMES(5)[6], K(5)[6], 5);
    CubeRoot(PRIMES(5)[7], K(5)[7], 6);
  }

  lemma Roots6()
    ensures forall i :: 0 <= i < 8 ==> CubeRootBits(PRIMES(6)[i], K(6)[i])
  {
    hide CubeRootBits;
    CubeRoot(PRIMES(6)[0], K(6)[0], 6);
    CubeRoot(PRIMES(6)[1], K(6)[1], 6);
    CubeRoot(PRIMES(6)[2], K(6)[2], 6);
    CubeRoot(PRIMES(6)[3], K(6)[3], 6);
    CubeRoot(PRIMES(6)[4], K(6)[4], 6);
    CubeRoot(PRIMES(6)[5], K(6)[5], 6);
    CubeRoot(PRIMES(6)[6], K(6)[6], 6);
    CubeRoot(PRIMES(6)[7], K(6)[7], 6);
  }

  lemma Roots7()
    ensures forall i :: 0 <= i < 8 ==> CubeRootBits(PRIMES(7)[i], K(7)[i])
  {
    hide CubeRootBits;
    CubeRoot(PRIMES(7)[0], K(7)[0], 6);
    CubeRoot(PRIMES(7)[1], K(7)[1], 6);
    CubeRoot(PRIMES(7)[2], K(7)[2], 6);
    CubeRoot(PRIMES(7)[3], K(7)[3], 6);
    CubeRoot(PRIMES(7)[4], K(7)[4], 6);
    CubeRoot(PRIMES(7)[5], K(7)[5], 6);
    CubeRoot(PRIMES(7)[6], K(7)[6], 6);
    CubeRoot(PRIMES(7)[7], K(7)[7], 6);
  }

  /** Constant `t` is the cube root of the prime with `t` smaller primes, behind the point. */
  lemma ConstantIsCubeRoot(t: nat)
    requires t < 64
    ensures exists p :: Prime(p) && PrimesBelow(p) == t && CubeRootBits(p, Constant(t))
  {
    hide Prime, PRIMES, K, CubeRootBits;
    PrimeAtCorrect(t);
    match t / 8
    case 0 => Roots0();
    case 1 => Roots1();
    case 2 => Roots2();
    case 3 => Roots3();
    case 4 => Roots4();
    case 5 => Roots5();
    case 6 => Roots6();
    case 7 => Roots7();
  }

  /** The initial hash words, likewise from the square roots of the first eight primes. */
  lemma InitialIsSquareRoot(t: nat)
    requires t < 8
    ensures exists p :: Prime(p) && PrimesBelow(p) == t && SquareRootBits(p, InitialWord(t))
  {
    hide Prime, SquareRootBits;
    PrimeAtCorrect(t);
    SquareRoots();
    assert PrimeAt(t) == PRIMES(0)[t];
  }

  function InitialWord(t: nat): bv32
    requires t < 8
  {
    [INITIAL.a, INITIAL.b, INITIAL.c, INITIAL.d, INITIAL.e, INITIAL.f, INITIAL.g, INITIAL.h][t]
  }

  lemma SquareRoot(n: nat, bits: bv32, whole: nat)
    requires Square(Fixed(whole, bits)) <= n * 0x1_0000_0000_0000_0000 < Square(Fixed(whole, bits) + 1)
    ensures SquareRootBits(n, bits)
  {
  }

  lemma SquareRoots()
    ensures forall i :: 0 <= i < 8 ==> SquareRootBits(PRIMES(0)[i], InitialWord(i))
  {
    hide SquareRootBits;
    SquareRoot(PRIMES(0)[0], InitialWord(0), 1);
    SquareRoot(PRIMES(0)[1], InitialWord(1), 1);
    SquareRoot(PRIMES(0)[2], InitialWord(2), 2);
    SquareRoot(PRIMES(0)[3], InitialWord(3), 2);
    SquareRoot(PRIMES(0)[4], InitialWord(4), 3);
    SquareRoot(PRIMES(0)[5], InitialWord(5), 3);
    SquareRoot(PRIMES(0)[6], InitialWord(6), 4);
    SquareRoot(PRIMES(0)[7], InitialWord(7), 4);
  }
}
