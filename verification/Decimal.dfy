/** The decimal printer and parser, in wrapping 32-bit arithmetic.  Characters are their codes. */
module Decimal {

  const ZERO: int := '0' as int
  const END: int := 0    // the string terminator
  const WIDTH: int := 0x1_0000_0000

  /** The canonical decimal form: no leading zero, most significant digit first. */
  function Digits(n: nat): (s: seq<int>)
    ensures |s| > 0
    ensures forall i :: 0 <= i < |s| ==> '0' as int <= s[i] <= '9' as int
    ensures n > 0 ==> s[0] != '0' as int
  {
    if n < 10 then [ZERO + n] else Digits(n / 10) + [ZERO + n % 10]
  }

  /** The largest number of 32 bits. */
  lemma LargestDigits()
    ensures Digits(0xffff_ffff) ==
      ['4' as int, '2' as int, '9' as int, '4' as int, '9' as int, '6' as int, '7' as int, '2' as int, '9' as int, '5' as int]
  {
    assert Digits(429) == ['4' as int, '2' as int, '9' as int];
    assert Digits(429496) == ['4' as int, '2' as int, '9' as int, '4' as int, '9' as int, '6' as int];
    assert Digits(42949672) == Digits(429496) + ['7' as int, '2' as int];
  }

  /** The digits in the order in which the printer produces them; none for zero. */
  function LowFirst(n: nat): seq<int> {
    if n == 0 then [] else [ZERO + n % 10] + LowFirst(n / 10)
  }

  function Reverse(s: seq<int>): (r: seq<int>)
    ensures |r| == |s|
  {
    if s == [] then [] else Reverse(s[1..]) + [s[0]]
  }

  lemma {:induction false} ReverseAt(s: seq<int>, i: nat)
    requires i < |s|
    ensures Reverse(s)[i] == s[|s| - 1 - i]
  {
    if i < |s| - 1 { ReverseAt(s[1..], i); }
  }

  lemma {:induction false} DigitsReversed(n: nat)
    requires n > 0
    ensures Reverse(LowFirst(n)) == Digits(n)
  {
    if n < 10 {
      assert LowFirst(n) == [ZERO + n] && Reverse([ZERO + n]) == [ZERO + n];
    } else {
      DigitsReversed(n / 10);
      assert LowFirst(n)[1..] == LowFirst(n / 10);
    }
  }

  /** Ten digits are enough, so a string takes at most 11 bytes with its terminator. */
  lemma DigitCount(n: nat)
    requires n < WIDTH
    ensures |Digits(n)| <= 10
  {
    DigitBound(n, 10, 10_000_000_000);
  }

  lemma {:induction false} DigitBound(n: nat, k: nat, limit: nat)
    requires k > 0 && limit == Power10(k) && n < limit
    ensures |Digits(n)| <= k
  {
    if n >= 10 {
      assert k > 1 by { assert Power10(1) == 10 * Power10(0) == 10; }
      DigitBound(n / 10, k - 1, Power10(k - 1));
    }
  }

  function Power10(k: nat): nat { if k == 0 then 1 else 10 * Power10(k - 1) }

  /** The printing loop: digits in reverse order. */
  method ProduceDigits(buffer: array<int>, n: nat) returns (ptr: nat)
    requires |LowFirst(n)| < buffer.Length
    modifies buffer
    ensures ptr == |LowFirst(n)|
    ensures buffer[..] == LowFirst(n) + old(buffer[ptr..])
  {
    ptr := 0;
    var val := n;
    while val != 0
      invariant 0 <= val && ptr + |LowFirst(val)| == |LowFirst(n)|
      invariant LowFirst(n) == buffer[..ptr] + LowFirst(val)
      invariant buffer[ptr..] == old(buffer[ptr..])
      decreases val
    {
      buffer[ptr] := val % 10 + ZERO;
      ptr := ptr + 1;
      val := val / 10;
    }
  }

  /** The reversing loop, on `buffer[..ptr + 1]`. */
  method ReverseInPlace(buffer: array<int>, ptr: int)
    requires -1 <= ptr < buffer.Length
    modifies buffer
    ensures buffer[..] == Reverse(old(buffer[..ptr + 1])) + old(buffer[ptr + 1..])
  {
    ghost var was := buffer[..ptr + 1];
    var front, back := 0, ptr;
    while back > front
      invariant 0 <= front <= back + 1 && front + back == ptr
      invariant forall i :: 0 <= i < front || back < i <= ptr ==> buffer[i] == was[ptr - i]
      invariant forall i :: front <= i <= back ==> buffer[i] == was[i]
      invariant buffer[ptr + 1..] == old(buffer[ptr + 1..])
    {
      var tmp := buffer[back];
      buffer[back] := buffer[front];
      buffer[front] := tmp;
      back := back - 1;
      front := front + 1;
    }
    forall i | 0 <= i <= ptr
      ensures buffer[i] == Reverse(was)[i]
    {
      ReverseAt(was, i);
    }
    assert buffer[..ptr + 1] == Reverse(was);
  }

  /** uns_to_str for a number other than zero. */
  method PrintDigits(buffer: array<int>, n: nat) returns (retval: int)
    requires n > 0 && |Digits(n)| < buffer.Length
    modifies buffer
    ensures buffer[..] == Digits(n) + [END] + old(buffer[|Digits(n)| + 1..])
    ensures retval == |Digits(n)| - 1
  {
    hide LowFirst, Digits, Reverse;
    DigitsReversed(n);
    ghost var before := buffer[..];
    var ptr := ProduceDigits(buffer, n);
    ghost var produced := buffer[..];
    buffer[ptr] := END;
    retval := ptr - 1;
    Terminated(before, LowFirst(n), produced, buffer[..], Digits(n));
    ReverseInPlace(buffer, retval);
  }

  /** The buffer once the terminator stands behind the digits, and what reversing them makes of it. */
  lemma Terminated(before: seq<int>, low: seq<int>, produced: seq<int>, after: seq<int>, digits: seq<int>)
    requires |low| < |before| && produced == low + before[|low|..] && after == produced[|low| := END]
    requires digits == Reverse(low)
    ensures after[..|low|] == low && Reverse(after[..|low|]) + after[|low|..] == digits + [END] + before[|digits| + 1..]
  {
    hide Reverse;
    assert after[..|low|] == low;
    assert after[|low|..] == [END] + before[|low| + 1..];
  }

  /** uns_to_str; what it returns is the length of the string for zero only. */
  method UnsToStr(buffer: array<int>, n: nat) returns (retval: int)
    requires n < WIDTH && |Digits(n)| < buffer.Length
    modifies buffer
    ensures buffer[..] == Digits(n) + [0] + old(buffer[|Digits(n)| + 1..])
    ensures retval == if n == 0 then 1 else |Digits(n)| - 1
    ensures retval == |Digits(n)| <==> n == 0
  {
    hide Digits;
    if n == 0 {
      JustZero();
      buffer[0] := ZERO;
      buffer[1] := END;
      return 1;
    }
    retval := PrintDigits(buffer, n);
  }

  lemma JustZero()
    ensures Digits(0) == [ZERO]
  {
  }

  /** The decimal value of a string.  Any character counts by its distance from '0'. */
  function Val(s: seq<int>): int
    requires |s| > 0
  {
    if |s| == 1 then s[0] - ZERO else Val(s[..|s| - 1]) * 10 + (s[|s| - 1] - ZERO)
  }

  lemma ShiftMod(x: int, q: int)
    ensures (x + WIDTH * q) % WIDTH == x % WIDTH
  {
  }

  /** Reducing a number before adding to it, or multiplying it, changes nothing modulo the width. */
  lemma ReduceFirst(x: int, k: int, d: int)
    ensures (x % WIDTH * k + d) % WIDTH == (x * k + d) % WIDTH
  {
    var q := x / WIDTH;
    assert x == x % WIDTH + WIDTH * q;
    assert x * k + d == x % WIDTH * k + d + WIDTH * (q * k);
    ShiftMod(x % WIDTH * k + d, q * k);
  }

  /** One step of the parser, with a reduction after every operation. */
  lemma ParseStep(x: int, c: int)
    ensures ((x % WIDTH * 10 % WIDTH + c) % WIDTH - ZERO) % WIDTH == (x * 10 + (c - ZERO)) % WIDTH
  {
    var y := x % WIDTH * 10;
    ReduceFirst(x, 10, 0);
    ReduceFirst(y, 1, c);
    ReduceFirst(y + c, 1, -ZERO);
    ReduceFirst(x, 10, c - ZERO);
  }

  /** str_to_uns, on a string whose terminator is at `end`: the decimal value, modulo 2^32. */
  method StrToUns(str: seq<int>, ghost end: nat) returns (val: nat)
    requires 1 <= end < |str| && str[end] == 0 && forall i :: 1 <= i < end ==> str[i] != 0
    ensures val == Val(str[..end]) % WIDTH
  {
    val := (str[0] - ZERO) % WIDTH;
    var i := 1;
    while str[i] != END
      invariant 1 <= i <= end && val == Val(str[..i]) % WIDTH
      decreases end - i
    {
      ParseStep(Val(str[..i]), str[i]);
      assert str[..i + 1][..i] == str[..i];
      val := ((val * 10 % WIDTH + str[i]) % WIDTH - ZERO) % WIDTH;
      i := i + 1;
    }
  }

  /** The canonical form of a number has its value. */
  lemma {:induction false} ValOfDigits(n: nat)
    ensures Val(Digits(n)) == n
  {
    if n >= 10 {
      ValOfDigits(n / 10);
      assert Digits(n)[..|Digits(n)| - 1] == Digits(n / 10);
    }
  }

  /** Leading zeros do not matter. */
  lemma {:induction false} LeadingZero(s: seq<int>)
    requires |s| > 0
    ensures Val([ZERO] + s) == Val(s)
    decreases |s|
  {
    if |s| == 1 {
      assert ([ZERO] + s)[..1] == [ZERO];
    } else {
      LeadingZero(s[..|s| - 1]);
      assert ([ZERO] + s)[..|s|] == [ZERO] + s[..|s| - 1];
    }
  }

  /** An 11-byte buffer is enough, and parsing what was printed into it gives the number back. */
  method PrintAndParse(n: nat) returns (val: nat)
    requires n < WIDTH
    ensures val == n
  {
    hide Digits, Val;
    DigitCount(n);
    ValOfDigits(n);
    var buffer := new int[11];
    var _ := UnsToStr(buffer, n);
    ghost var length := |Digits(n)|;
    assert buffer[..][..length] == Digits(n);
    val := StrToUns(buffer[..], length);
  }
}
