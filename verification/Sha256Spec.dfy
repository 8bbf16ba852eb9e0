/** SHA-256 as FIPS 180-4 defines it, on messages of whole bytes. */
module Sha256Spec {

  // ----- section 4.1.2 and section 3.2: functions on words -----

  function RotateRight(x: bv32, n: bv32): bv32
    requires 0 < n < 32
  {
    (x >> n) | (x << (32 - n))
  }

  function ShiftRight(x: bv32, n: bv32): bv32
    requires n < 32
  {
    x >> n
  }

  function Xor3(x: bv32, y: bv32, z: bv32): bv32 { x ^ y ^ z }

  function Ch(x: bv32, y: bv32, z: bv32): bv32 { (x & y) ^ (!x & z) }
  function Maj(x: bv32, y: bv32, z: bv32): bv32 { Xor3(x & y, x & z, y & z) }
  function BigSigma0(x: bv32): bv32 { Xor3(RotateRight(x, 2), RotateRight(x, 13), RotateRight(x, 22)) }
  function BigSigma1(x: bv32): bv32 { Xor3(RotateRight(x, 6), RotateRight(x, 11), RotateRight(x, 25)) }
  function SmallSigma0(x: bv32): bv32 { Xor3(RotateRight(x, 7), RotateRight(x, 18), ShiftRight(x, 3)) }
  function SmallSigma1(x: bv32): bv32 { Xor3(RotateRight(x, 17), RotateRight(x, 19), ShiftRight(x, 10)) }

  // ----- section 4.2.2: constants -----

  /** The constants in rows of eight. */
  function K(row: nat): (k: seq<bv32>)
    requires row < 8
    ensures |k| == 8
  {
    match row
    case 0 => [0x428a2f98, 0x71374491, 0xb5c0fbcf, 0xe9b5dba5, 0x3956c25b, 0x59f111f1, 0x923f82a4, 0xab1c5ed5]
    case 1 => [0xd807aa98, 0x12835b01, 0x243185be, 0x550c7dc3, 0x72be5d74, 0x80deb1fe, 0x9bdc06a7, 0xc19bf174]
    case 2 => [0xe49b69c1, 0xefbe4786, 0x0fc19dc6, 0x240ca1cc, 0x2de92c6f, 0x4a7484aa, 0x5cb0a9dc, 0x76f988da]
    case 3 => [0x983e5152, 0xa831c66d, 0xb00327c8, 0xbf597fc7, 0xc6e00bf3, 0xd5a79147, 0x06ca6351, 0x14292967]
    case 4 => [0x27b70a85, 0x2e1b2138, 0x4d2c6dfc, 0x53380d13, 0x650a7354, 0x766a0abb, 0x81c2c92e, 0x92722c85]
    case 5 => [0xa2bfe8a1, 0xa81a664b, 0xc24b8b70, 0xc76c51a3, 0xd192e819, 0xd6990624, 0xf40e3585, 0x106aa070]
    case 6 => [0x19a4c116, 0x1e376c08, 0x2748774c, 0x34b0bcb5, 0x391c0cb3, 0x4ed8aa4a, 0x5b9cca4f, 0x682e6ff3]
    case _ => [0x748f82ee, 0x78a5636f, 0x84c87814, 0x8cc70208, 0x90befffa, 0xa4506ceb, 0xbef9a3f7, 0xc67178f2]
  }

  function Constant(t: nat): bv32
    requires t < 64
  {
    K(t / 8)[t % 8]
  }

  // ----- section 5.2.1: a block as sixteen big-endian words -----

  type Block = b: seq<bv8> | |b| == 64 witness seq(64, i => 0)

  /** The word with bytes `b3` (highest) to `b0`. */
  function WordOf(b3: bv32, b2: bv32, b1: bv32, b0: bv32): bv32 {
    (b3 << 24) | (b2 << 16) | (b1 << 8) | b0
  }

  function BigEndian(b0: bv8, b1: bv8, b2: bv8, b3: bv8): bv32 {
    WordOf(b0 as bv32, b1 as bv32, b2 as bv32, b3 as bv32)
  }

  function BlockWord(block: Block, t: nat): bv32
    requires t < 16
  {
    BigEndian(block[4 * t], block[4 * t + 1], block[4 * t + 2], block[4 * t + 3])
  }

  // ----- section 6.2.2: the hash computation for one block -----

  /** Word `t` of the message schedule. */
  function Schedule(block: Block, t: nat): bv32
    requires t < 64
  {
    if t < 16 then BlockWord(block, t)
    else NextWord(Schedule(block, t - 2), Schedule(block, t - 7), Schedule(block, t - 15), Schedule(block, t - 16))
  }

  /** Addition modulo 2^32. */
  function Add(x: bv32, y: bv32): bv32 { x + y }
  function Add4(x: bv32, y: bv32, z: bv32, u: bv32): bv32 { x + y + z + u }

  function NextWord(w2: bv32, w7: bv32, w15: bv32, w16: bv32): bv32 {
    Add4(SmallSigma1(w2), w7, SmallSigma0(w15), w16)
  }

  datatype Vars = Vars(a: bv32, b: bv32, c: bv32, d: bv32, e: bv32, f: bv32, g: bv32, h: bv32)

  function Temp1(h: bv32, s: bv32, ch: bv32, k: bv32, w: bv32): bv32 { h + s + ch + k + w }

  function Round(v: Vars, k: bv32, w: bv32): Vars {
    var t1 := Temp1(v.h, BigSigma1(v.e), Ch(v.e, v.f, v.g), k, w);
    var t2 := Add(BigSigma0(v.a), Maj(v.a, v.b, v.c));
    Vars(Add(t1, t2), v.a, v.b, v.c, Add(v.d, t1), v.e, v.f, v.g)
  }

  /** The working variables after `t` rounds. */
  function Rounds(v: Vars, block: Block, t: nat): Vars
    requires t <= 64
  {
    if t == 0 then v else Round(Rounds(v, block, t - 1), Constant(t - 1), Schedule(block, t - 1))
  }

  function Sum(x: Vars, y: Vars): Vars {
    Vars(Add(x.a, y.a), Add(x.b, y.b), Add(x.c, y.c), Add(x.d, y.d),
         Add(x.e, y.e), Add(x.f, y.f), Add(x.g, y.g), Add(x.h, y.h))
  }

  function Compress(h: Vars, block: Block): Vars {
    Sum(h, Rounds(h, block, 64))
  }

  /** All blocks of a padded message, in order. */
  function HashBlocks(h: Vars, m: seq<bv8>): Vars
    requires |m| % 64 == 0
    decreases |m|
  {
    if m == [] then h else Compress(HashBlocks(h, m[..|m| - 64]), m[|m| - 64..])
  }

  lemma OneBlock(h: Vars, m: Block)
    ensures HashBlocks(h, m) == Compress(h, m)
  {
    hide Compress;
    assert m[..0] == [] && m[0..] == m;
  }

  // ----- section 5.3.3 and section 5.1.1: initial value and padding -----

  const INITIAL: Vars := Vars(0x6a09e667, 0xbb67ae85, 0x3c6ef372, 0xa54ff53a, 0x510e527f, 0x9b05688c, 0x1f83d9ab, 0x5be0cd19)

  const LENGTH_LIMIT: int := 0x1_0000_0000_0000_0000

  /** The zero bytes between the single 1 bit (a byte 0x80) and the length. */
  function ZeroBytes(n: nat): (z: nat)
    ensures (n + 1 + z) % 64 == 56 && z < 64
  {
    (55 - n) % 64
  }

  lemma ZeroBytesEnd(n: nat)
    ensures n + 1 + ZeroBytes(n) == 64 * ((n + 1 + ZeroBytes(n)) / 64) + 56
  {
  }

  /** A number of bits that completes whole bytes to 448 modulo 512 is at least the one chosen. */
  lemma LeastBytes(n: nat, z: nat, q: nat)
    requires n + 1 + z == 64 * q + 56
    ensures ZeroBytes(n) <= z
  {
    ZeroBytesEnd(n);
  }

  lemma BitsAreBytes(n: nat, k: nat, q: nat)
    requires 8 * n + 1 + k == 512 * q + 448
    ensures k == 8 * (64 * q + 55 - n) + 7 && 0 <= 64 * q + 55 - n
  {
  }

  /** In bits: the smallest non-negative number of zero bits that leaves room for the length. */
  lemma PaddingIsLeast(n: nat, k: nat)
    ensures 8 * n + 1 + (8 * ZeroBytes(n) + 7) == 512 * ((n + 1 + ZeroBytes(n)) / 64) + 448
    ensures (8 * n + 1 + k) % 512 == 448 ==> 8 * ZeroBytes(n) + 7 <= k
  {
    hide ZeroBytes;
    ZeroBytesEnd(n);
    if (8 * n + 1 + k) % 512 == 448 {
      var q := (8 * n + 1 + k) / 512;
      BitsAreBytes(n, k, q);
      LeastBytes(n, 64 * q + 55 - n, q);
    }
  }

  function BigEndian64(x: bv64): (s: seq<bv8>)
    ensures |s| == 8
  {
    [((x >> 56) & 0xff) as bv8, ((x >> 48) & 0xff) as bv8, ((x >> 40) & 0xff) as bv8, ((x >> 32) & 0xff) as bv8,
     ((x >> 24) & 0xff) as bv8, ((x >> 16) & 0xff) as bv8, ((x >> 8) & 0xff) as bv8, (x & 0xff) as bv8]
  }

  function LengthWord(n: int): bv64
    requires 0 <= n < LENGTH_LIMIT
  {
    n as bv64
  }

  /** The message length in bits, as the last eight bytes of the padded message. */
  function LengthBytes(n: nat): (s: seq<bv8>)
    ensures |s| == 8
  {
    BigEndian64(LengthWord(8 * n % LENGTH_LIMIT))
  }

  /** The length counts modulo 2^64. */
  lemma LengthSamples()
    ensures LengthBytes(0x2000_0000) == [0, 0, 0, 1, 0, 0, 0, 0]
    ensures LengthBytes(0x1fff_ffff_ffff_ffff) == [0xff, 0xff, 0xff, 0xff, 0xff, 0xff, 0xff, 0xf8]
    ensures LengthBytes(0x2000_0000_0000_0001) == [0, 0, 0, 0, 0, 0, 0, 8]
  {
    hide LengthWord, BigEndian64;
    LengthWordSamples();
    LengthByteSamples();
  }

  lemma LengthWordSamples()
    ensures LengthWord(0x1_0000_0000) == 0x1_0000_0000 && LengthWord(8) == 8
    ensures LengthWord(0xffff_ffff_ffff_fff8) == 0xffff_ffff_ffff_fff8
  {
  }

  lemma LengthByteSamples()
    ensures BigEndian64(0x1_0000_0000) == [0, 0, 0, 1, 0, 0, 0, 0] && BigEndian64(8) == [0, 0, 0, 0, 0, 0, 0, 8]
    ensures BigEndian64(0xffff_ffff_ffff_fff8) == [0xff, 0xff, 0xff, 0xff, 0xff, 0xff, 0xff, 0xf8]
  {
  }

  function Zeros(n: nat): (s: seq<bv8>)
    ensures |s| == n
  {
    seq(n, i => 0)
  }

  lemma PadEnds(n: nat)
    requires n % 64 == 56
    ensures (n + 8) % 64 == 0
  {
  }

  function Pad(m: seq<bv8>): (p: seq<bv8>)
    ensures |p| % 64 == 0
  {
    PadEnds(|m| + 1 + ZeroBytes(|m|));
    m + [0x80] + Zeros(ZeroBytes(|m|)) + LengthBytes(|m|)
  }

  // ----- the digest -----

  function WordBytes(x: bv32): (s: seq<bv8>)
    ensures |s| == 4
  {
    [((x >> 24) & 0xff) as bv8, ((x >> 16) & 0xff) as bv8, ((x >> 8) & 0xff) as bv8, (x & 0xff) as bv8]
  }

  function BytesOf(words: seq<bv32>): seq<bv8> {
    if words == [] then [] else BytesOf(words[..|words| - 1]) + WordBytes(words[|words| - 1])
  }

  lemma NoBytes()
    ensures BytesOf([]) == []
  {
  }

  lemma OneMoreWord(words: seq<bv32>, word: bv32)
    ensures BytesOf(words + [word]) == BytesOf(words) + WordBytes(word)
  {
    hide WordBytes;
    assert (words + [word])[..|words|] == words;
  }

  function DigestBytes(v: Vars): seq<bv8> {
    BytesOf([v.a, v.b, v.c, v.d, v.e, v.f, v.g, v.h])
  }

  function Sha256(m: seq<bv8>): seq<bv8> {
    DigestBytes(HashBlocks(INITIAL, Pad(m)))
  }
}
