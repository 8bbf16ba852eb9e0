/** The streaming hash: a context that takes a message in pieces of any size. */
module Sha256 {
  import opened Sha256Spec

  // ----- the word functions as macros -----

  function RotL(x: bv32, n: bv32): bv32
    requires 0 < n < 32
  {
    (x << n) | (x >> (32 - n))
  }

  function RotR(x: bv32, n: bv32): bv32
    requires 0 < n < 32
  {
    (x >> n) | (x << (32 - n))
  }

  // SIGMA0, SIGMA1, sigma0 and sigma1

  function UpperSigma0(x: bv32): bv32 { Xor3(RotR(x, 2), RotR(x, 13), RotR(x, 22)) }
  function UpperSigma1(x: bv32): bv32 { Xor3(RotR(x, 6), RotR(x, 11), RotR(x, 25)) }
  function LowerSigma0(x: bv32): bv32 { Xor3(RotR(x, 7), RotR(x, 18), ShiftRight(x, 3)) }
  function LowerSigma1(x: bv32): bv32 { Xor3(RotR(x, 17), RotR(x, 19), ShiftRight(x, 10)) }

  lemma RotRCorrect(x: bv32, n: bv32)
    requires 0 < n < 32
    ensures RotR(x, n) == RotateRight(x, n)
  {
  }

  lemma UpperSigmaCorrect(x: bv32)
    ensures UpperSigma0(x) == BigSigma0(x) && UpperSigma1(x) == BigSigma1(x)
  {
    hide RotR, RotateRight, ShiftRight, Xor3;
    RotRCorrect(x, 2);
    RotRCorrect(x, 13);
    RotRCorrect(x, 22);
    RotRCorrect(x, 6);
    RotRCorrect(x, 11);
    RotRCorrect(x, 25);
  }

  lemma LowerSigmaCorrect(x: bv32)
    ensures LowerSigma0(x) == SmallSigma0(x) && LowerSigma1(x) == SmallSigma1(x)
  {
    hide RotR, RotateRight, ShiftRight, Xor3;
    RotRCorrect(x, 7);
    RotRCorrect(x, 18);
    RotRCorrect(x, 17);
    RotRCorrect(x, 19);
  }

  function FastCh(x: bv32, y: bv32, z: bv32): bv32 { z ^ (x & (y ^ z)) }
  function FastMaj(x: bv32, y: bv32, z: bv32): bv32 { (x & (y | z)) | (y & z) }

  lemma ChBits(x: bv32, y: bv32, z: bv32)
    ensures z ^ (x & (y ^ z)) == (x & y) ^ (!x & z)
  {
  }

  lemma FastChCorrect(x: bv32, y: bv32, z: bv32)
    ensures FastCh(x, y, z) == Ch(x, y, z)
  {
    ChBits(x, y, z);
  }

  lemma MajBits(x: bv32, y: bv32, z: bv32)
    ensures (x & (y | z)) | (y & z) == (x & y) ^ (x & z) ^ (y & z)
  {
  }

  lemma FastMajCorrect(x: bv32, y: bv32, z: bv32)
    ensures FastMaj(x, y, z) == Maj(x, y, z)
  {
    MajBits(x, y, z);
  }

  /** DO_ROUND */
  function DoRound(v: Vars, k: bv32, w: bv32): Vars {
    var t1 := Temp1(v.h, UpperSigma1(v.e), FastCh(v.e, v.f, v.g), k, w);
    var t2 := Add(UpperSigma0(v.a), FastMaj(v.a, v.b, v.c));
    Vars(Add(t1, t2), v.a, v.b, v.c, Add(v.d, t1), v.e, v.f, v.g)
  }

  lemma DoRoundCorrect(v: Vars, k: bv32, w: bv32)
    ensures DoRound(v, k, w) == Round(v, k, w)
  {
    hide FastCh, FastMaj, Ch, Maj, UpperSigma0, UpperSigma1, BigSigma0, BigSigma1, Temp1, Add;
    UpperSigmaCorrect(v.e);
    UpperSigmaCorrect(v.a);
    FastChCorrect(v.e, v.f, v.g);
    FastMajCorrect(v.a, v.b, v.c);
  }

  // ----- byte order on a little-endian machine -----

  /** A word as it is read from four bytes of memory. */
  function LittleEndian(b0: bv8, b1: bv8, b2: bv8, b3: bv8): bv32 {
    WordOf(b3 as bv32, b2 as bv32, b1 as bv32, b0 as bv32)
  }

  /** BYTESWAP */
  function ByteSwap(x: bv32): bv32 {
    (RotR(x, 8) & 0xff00ff00) | (RotL(x, 8) & 0x00ff00ff)
  }

  lemma SwapBits(x: bv32, b0: bv32, b1: bv32, b2: bv32, b3: bv32)
    requires b0 < 0x100 && b1 < 0x100 && b2 < 0x100 && b3 < 0x100
    requires x == (b3 << 24) | (b2 << 16) | (b1 << 8) | b0
    ensures (((x >> 8) | (x << 24)) & 0xff00ff00) | (((x << 8) | (x >> 24)) & 0x00ff00ff) == (b0 << 24) | (b1 << 16) | (b2 << 8) | b3
  {
  }

  lemma ByteRange(b: bv8)
    ensures (b as bv32) < 0x100
  {
  }

  lemma RotateByte(x: bv32)
    ensures RotR(x, 8) == (x >> 8) | (x << 24) && RotL(x, 8) == (x << 8) | (x >> 24)
  {
  }

  lemma SwappedWord(x: bv32)
    ensures ByteSwap(x) == (((x >> 8) | (x << 24)) & 0xff00ff00) | (((x << 8) | (x >> 24)) & 0x00ff00ff)
  {
    hide RotR, RotL;
    RotateByte(x);
  }

  lemma SwappedBytes(b0: bv32, b1: bv32, b2: bv32, b3: bv32)
    requires b0 < 0x100 && b1 < 0x100 && b2 < 0x100 && b3 < 0x100
    ensures ByteSwap(WordOf(b3, b2, b1, b0)) == WordOf(b0, b1, b2, b3)
  {
    hide ByteSwap;
    var x := WordOf(b3, b2, b1, b0);
    SwappedWord(x);
    SwapBits(x, b0, b1, b2, b3);
  }

  lemma ByteSwapCorrect(b0: bv8, b1: bv8, b2: bv8, b3: bv8)
    ensures ByteSwap(LittleEndian(b0, b1, b2, b3)) == BigEndian(b0, b1, b2, b3)
  {
    hide ByteSwap, WordOf;
    ByteRange(b0);
    ByteRange(b1);
    ByteRange(b2);
    ByteRange(b3);
    SwappedBytes(b0 as bv32, b1 as bv32, b2 as bv32, b3 as bv32);
  }

  function LoadWord(cbuf: Block, i: nat): bv32
    requires i < 16
  {
    LittleEndian(cbuf[4 * i], cbuf[4 * i + 1], cbuf[4 * i + 2], cbuf[4 * i + 3])
  }

  lemma LoadedWord(cbuf: Block, i: nat)
    requires i < 16
    ensures ByteSwap(LoadWord(cbuf, i)) == Schedule(cbuf, i)
  {
    hide ByteSwap, LittleEndian, BigEndian;
    ByteSwapCorrect(cbuf[4 * i], cbuf[4 * i + 1], cbuf[4 * i + 2], cbuf[4 * i + 3]);
  }

  /** The sum in the second loop of the schedule. */
  function Mixed(w2: bv32, w7: bv32, w15: bv32, w16: bv32): bv32 {
    Add4(LowerSigma1(w2), w7, LowerSigma0(w15), w16)
  }

  lemma MixedCorrect(w2: bv32, w7: bv32, w15: bv32, w16: bv32)
    ensures Mixed(w2, w7, w15, w16) == NextWord(w2, w7, w15, w16)
  {
    hide LowerSigma0, LowerSigma1, SmallSigma0, SmallSigma1, Add4;
    LowerSigmaCorrect(w2);
    LowerSigmaCorrect(w15);
  }

  lemma NextScheduled(cbuf: Block, t: nat)
    requires 16 <= t < 64
    ensures Schedule(cbuf, t) == Mixed(Schedule(cbuf, t - 2), Schedule(cbuf, t - 7), Schedule(cbuf, t - 15), Schedule(cbuf, t - 16))
  {
    hide Mixed, NextWord, BlockWord;
    MixedCorrect(Schedule(cbuf, t - 2), Schedule(cbuf, t - 7), Schedule(cbuf, t - 15), Schedule(cbuf, t - 16));
  }

  lemma NextRound(v: Vars, cbuf: Block, t: nat)
    requires t < 64
    ensures Rounds(v, cbuf, t + 1) == DoRound(Rounds(v, cbuf, t), Constant(t), Schedule(cbuf, t))
  {
    hide Round, DoRound, Schedule, Constant;
    DoRoundCorrect(Rounds(v, cbuf, t), Constant(t), Schedule(cbuf, t));
  }

  lemma FourRounds(v: Vars, cbuf: Block, t: nat)
    requires t + 4 <= 64
    ensures Rounds(v, cbuf, t + 4) ==
      DoRound(DoRound(DoRound(DoRound(Rounds(v, cbuf, t), Constant(t), Schedule(cbuf, t)), Constant(t + 1), Schedule(cbuf, t + 1)),
        Constant(t + 2), Schedule(cbuf, t + 2)), Constant(t + 3), Schedule(cbuf, t + 3))
  {
    hide Rounds, DoRound, Schedule, Constant;
    NextRound(v, cbuf, t);
    NextRound(v, cbuf, t + 1);
    NextRound(v, cbuf, t + 2);
    NextRound(v, cbuf, t + 3);
  }

  // ----- what a context stands for, and what input does to it -----

  /** The hash of the whole blocks seen so far, the bytes not hashed yet, and the length in bits. */
  datatype State = State(hash: Vars, pending: seq<bv8>, total: int)

  function Whole(n: nat): nat { n / 64 * 64 }

  /** The context after `data`, however it is cut into pieces. */
  ghost function Absorb(st: State, data: seq<bv8>): State {
    var m := st.pending + data;
    WholeBounds(|m|);
    State(HashBlocks(st.hash, m[..Whole(|m|)]), m[Whole(|m|)..], (st.total + 8 * |data|) % LENGTH_LIMIT)
  }

  lemma NoBlocks(h: Vars)
    ensures HashBlocks(h, []) == h
  {
  }

  lemma LastBlock(h: Vars, m: seq<bv8>, n: nat)
    requires |m| % 64 == 0 && |m| == n + 64
    ensures n % 64 == 0 && HashBlocks(h, m) == Compress(HashBlocks(h, m[..n]), m[n..])
  {
    hide Compress;
  }

  lemma CutBehind(a: seq<bv8>, b: seq<bv8>, n: nat)
    requires n <= |b|
    ensures (a + b)[..|a| + n] == a + b[..n] && (a + b)[|a| + n..] == b[n..]
  {
  }

  lemma {:induction false} HashConcat(h: Vars, a: seq<bv8>, b: seq<bv8>)
    requires |a| % 64 == 0 && |b| % 64 == 0
    ensures HashBlocks(h, a + b) == HashBlocks(HashBlocks(h, a), b)
    decreases |b|
  {
    hide Compress, HashBlocks;
    if b == [] {
      NoBlocks(HashBlocks(h, a));
      assert a + b == a;
    } else {
      var n := |b| - 64;
      HashConcat(h, a, b[..n]);
      CutBehind(a, b, n);
      LastBlock(h, a + b, |a| + n);
      LastBlock(HashBlocks(h, a), b, n);
    }
  }

  lemma WholeSplit(n: nat, k: nat)
    ensures Whole(n) + Whole(n - Whole(n) + k) == Whole(n + k)
  {
  }

  /** Cutting a message behind `n` bytes, and then the rest with what follows. */
  lemma CutTwice(m: seq<bv8>, b: seq<bv8>, n: nat, k: nat)
    requires n <= |m| && n + k <= |m| + |b|
    ensures (m + b)[..n + k] == m[..n] + (m[n..] + b)[..k]
    ensures (m + b)[n + k..] == (m[n..] + b)[k..]
  {
  }

  /** Input in two pieces is input in one. */
  lemma AbsorbTwice(st: State, a: seq<bv8>, b: seq<bv8>)
    ensures Absorb(Absorb(st, a), b) == Absorb(st, a + b)
  {
    hide HashBlocks, Whole;
    var m := st.pending + a;
    WholeBounds(|m|);
    var n := Whole(|m|);
    var rest := m[n..] + b;
    WholeBounds(|rest|);
    var k := Whole(|rest|);
    WholeSplit(|m|, |b|);
    HashConcat(st.hash, m[..n], rest[..k]);
    CutTwice(m, b, n, k);
    assert st.pending + (a + b) == m + b;
    TotalTwice(st.total, |a|, |b|);
  }

  lemma WholeBounds(n: nat)
    ensures Whole(n) <= n < Whole(n) + 64 && Whole(n) % 64 == 0
  {
  }

  lemma ModShift(z: int, q: int)
    ensures (z + LENGTH_LIMIT * q) % LENGTH_LIMIT == z % LENGTH_LIMIT
  {
  }

  lemma TotalTwice(total: int, a: int, b: int)
    ensures ((total + 8 * a) % LENGTH_LIMIT + 8 * b) % LENGTH_LIMIT == (total + 8 * (a + b)) % LENGTH_LIMIT
  {
    var x := total + 8 * a;
    ModShift(x % LENGTH_LIMIT + 8 * b, x / LENGTH_LIMIT);
  }

  lemma AbsorbNothing(st: State)
    requires |st.pending| < 64 && 0 <= st.total < LENGTH_LIMIT
    ensures Absorb(st, []) == st
  {
    assert st.pending + [] == st.pending;
    assert st.pending[..0] == [];
  }

  // A piece that fits the buffer: one block at most is hashed.

  lemma AbsorbPart(st: State, c: seq<bv8>)
    requires |st.pending| + |c| < 64
    ensures Absorb(st, c) == State(st.hash, st.pending + c, (st.total + 8 * |c|) % LENGTH_LIMIT)
  {
    var m := st.pending + c;
    assert m[..0] == [] && m[0..] == m;
  }

  lemma AbsorbFull(st: State, c: seq<bv8>)
    requires |st.pending| + |c| == 64
    ensures Absorb(st, c) == State(Compress(st.hash, st.pending + c), [], (st.total + 8 * |c|) % LENGTH_LIMIT)
  {
    hide Compress;
    var m := st.pending + c;
    OneBlock(st.hash, m);
    hide HashBlocks;
    assert m[..64] == m && m[64..] == [];
  }

  // ----- padding and the length, on a little-endian machine -----

  const PADDING: seq<bv8> := [0x80] + Zeros(63)

  /** The first `n` bytes of the padding table. */
  function Padding(n: nat): (s: seq<bv8>)
    requires n <= 64
    ensures |s| == n
  {
    PADDING[..n]
  }

  function Low32(x: bv64): bv32 { (x & 0xffff_ffff) as bv32 }
  function High32(x: bv64): bv32 { (x >> 32) as bv32 }
  function Join(high: bv32, low: bv32): bv64 { ((high as bv64) << 32) | (low as bv64) }

  /** _byteswap64 */
  function ByteSwap64(x: bv64): bv64 { Join(ByteSwap(Low32(x)), ByteSwap(High32(x))) }

  /** The four bytes of a word in memory. */
  function Bytes(x: bv32): (s: seq<bv8>)
    ensures |s| == 4
  {
    [(x & 0xff) as bv8, ((x >> 8) & 0xff) as bv8, ((x >> 16) & 0xff) as bv8, ((x >> 24) & 0xff) as bv8]
  }

  /** The eight bytes of a 64-bit integer in memory. */
  function Bytes64(x: bv64): (s: seq<bv8>)
    ensures |s| == 8
  {
    [(x & 0xff) as bv8, ((x >> 8) & 0xff) as bv8, ((x >> 16) & 0xff) as bv8, ((x >> 24) & 0xff) as bv8,
     ((x >> 32) & 0xff) as bv8, ((x >> 40) & 0xff) as bv8, ((x >> 48) & 0xff) as bv8, ((x >> 56) & 0xff) as bv8]
  }

  lemma SwappedInMemory(x: bv32)
    ensures Bytes(ByteSwap(x)) == WordBytes(x)
  {
    SwappedWord(x);
  }

  lemma JoinHalves(high: bv32, low: bv32)
    ensures Low32(Join(high, low)) == low && High32(Join(high, low)) == high
  {
  }

  lemma LowBytes(x: bv64)
    ensures (((x & 0xffff_ffff) as bv32) & 0xff) as bv8 == (x & 0xff) as bv8
    ensures ((((x & 0xffff_ffff) as bv32) >> 8) & 0xff) as bv8 == ((x >> 8) & 0xff) as bv8
    ensures ((((x & 0xffff_ffff) as bv32) >> 16) & 0xff) as bv8 == ((x >> 16) & 0xff) as bv8
    ensures ((((x & 0xffff_ffff) as bv32) >> 24) & 0xff) as bv8 == ((x >> 24) & 0xff) as bv8
  {
  }

  lemma HighBytes(x: bv64)
    ensures (((x >> 32) as bv32) & 0xff) as bv8 == ((x >> 32) & 0xff) as bv8
    ensures ((((x >> 32) as bv32) >> 8) & 0xff) as bv8 == ((x >> 40) & 0xff) as bv8
    ensures ((((x >> 32) as bv32) >> 16) & 0xff) as bv8 == ((x >> 48) & 0xff) as bv8
    ensures ((((x >> 32) as bv32) >> 24) & 0xff) as bv8 == ((x >> 56) & 0xff) as bv8
  {
  }

  lemma SplitBytes(x: bv64)
    ensures BigEndian64(x) == WordBytes(High32(x)) + WordBytes(Low32(x))
    ensures Bytes64(x) == Bytes(Low32(x)) + Bytes(High32(x))
  {
    LowBytes(x);
    HighBytes(x);
  }

  lemma LengthInMemory(x: bv64)
    ensures Bytes64(ByteSwap64(x)) == BigEndian64(x)
  {
    hide ByteSwap, Bytes, Bytes64, BigEndian64, WordBytes, Join, Low32, High32;
    JoinHalves(ByteSwap(Low32(x)), ByteSwap(High32(x)));
    SplitBytes(ByteSwap64(x));
    SwappedInMemory(Low32(x));
    SwappedInMemory(High32(x));
    SplitBytes(x);
  }

  // ----- the digest of a message that came in pieces -----

  /** What final appends: padding up to the length field, then the length. */
  function Tail(st: State): seq<bv8>
    requires |st.pending| < 64 && 0 <= st.total < LENGTH_LIMIT
  {
    Padding(PadLength(|st.pending|)) + Bytes64(ByteSwap64(LengthWord(st.total)))
  }

  function PadLength(bufferLength: nat): nat
    requires bufferLength < 64
  {
    if 120 - bufferLength > 64 then 56 - bufferLength else 120 - bufferLength
  }

  lemma PadLengthCorrect(n: nat)
    ensures PadLength(n % 64) == 1 + ZeroBytes(n)
    ensures Padding(PadLength(n % 64)) == [0x80] + Zeros(ZeroBytes(n))
  {
  }

  const START: State := State(INITIAL, [], 0)

  lemma AfterMessage(m: seq<bv8>)
    ensures var st := Absorb(START, m);
      st.pending == m[Whole(|m|)..] && |st.pending| == |m| % 64 && st.total == 8 * |m| % LENGTH_LIMIT
  {
    hide HashBlocks;
    assert [] + m == m;
  }

  /** After the message, final appends exactly what section 5.1.1 of FIPS 180-4 asks for. */
  lemma TailPads(m: seq<bv8>)
    ensures var st := Absorb(START, m);
      |st.pending| < 64 && 0 <= st.total < LENGTH_LIMIT && m + Tail(st) == Pad(m)
  {
    hide Absorb, HashBlocks, ByteSwap64, Bytes64, BigEndian64, PadLength, Padding, ZeroBytes, Zeros, LengthWord;
    AfterMessage(m);
    PadLengthCorrect(|m|);
    LengthInMemory(LengthWord(8 * |m| % LENGTH_LIMIT));
    assert Tail(Absorb(START, m)) == [0x80] + Zeros(ZeroBytes(|m|)) + LengthBytes(|m|);
    assert m + ([0x80] + Zeros(ZeroBytes(|m|)) + LengthBytes(|m|)) == m + [0x80] + Zeros(ZeroBytes(|m|)) + LengthBytes(|m|);
  }

  /** The hash after the tail is the hash of the padded message. */
  lemma FinalHash(m: seq<bv8>)
    ensures Tail.requires(Absorb(START, m))
    ensures Absorb(Absorb(START, m), Tail(Absorb(START, m))).hash == HashBlocks(INITIAL, Pad(m))
  {
    TailPads(m);
    hide HashBlocks, Tail, Pad;
    var tail := Tail(Absorb(START, m));
    AbsorbTwice(START, m, tail);
    var p := Pad(m);
    assert [] + p == p && Whole(|p|) == |p|;
    assert p[..|p|] == p;
  }

  /** All the pieces of a message. */
  function Flatten(pieces: seq<seq<bv8>>): seq<bv8> {
    if pieces == [] then [] else Flatten(pieces[..|pieces| - 1]) + pieces[|pieces| - 1]
  }

  class Context {
    var totalLength: int
    const hash: array<bv32>
    var bufferLength: int
    const buffer: array<bv8>

    ghost predicate Valid()
      reads this
    {
      hash.Length == 8 && buffer.Length == 64 && 0 <= bufferLength < 64 && 0 <= totalLength < LENGTH_LIMIT
    }

    function HashVars(): Vars
      requires hash.Length == 8
      reads hash
    {
      Vars(hash[0], hash[1], hash[2], hash[3], hash[4], hash[5], hash[6], hash[7])
    }

    /** The message schedule array of a block. */
    method Expand(cbuf: Block) returns (buf: array<bv32>)
      ensures fresh(buf) && buf.Length == 64
      ensures forall j :: 0 <= j < 64 ==> buf[j] == Schedule(cbuf, j)
    {
      hide Schedule, ByteSwap, Mixed, LoadWord;
      buf := new bv32[64];
      var w, c := 0, 0;
      for i := 16 downto 0
        invariant w == c == 16 - i
        invariant forall j :: 0 <= j < w ==> buf[j] == Schedule(cbuf, j)
      {
        LoadedWord(cbuf, c);
        buf[w] := ByteSwap(LoadWord(cbuf, c));
        w, c := w + 1, c + 1;
      }
      var w16, w15, w7, w2 := 0, 1, 9, 14;
      for i := 48 downto 0
        invariant w == 64 - i && w16 == w - 16 && w15 == w - 15 && w7 == w - 7 && w2 == w - 2
        invariant forall j :: 0 <= j < w ==> buf[j] == Schedule(cbuf, j)
      {
        NextScheduled(cbuf, w);
        buf[w] := Mixed(buf[w2], buf[w7], buf[w15], buf[w16]);
        w, w7, w16 := w + 1, w7 + 1, w16 + 1;
        w2, w15 := w2 + 1, w15 + 1;
      }
    }

    /** The 64 rounds, four to a turn. */
    method AllRounds(start: Vars, cbuf: Block) returns (v: Vars)
      ensures v == Rounds(start, cbuf, 64)
    {
      hide Schedule, Rounds, DoRound, Constant;
      var buf := Expand(cbuf);
      v := start;
      NoRounds(start, cbuf);
      var kp, w := 0, 0;
      for i := 16 downto 0
        invariant kp == w == 64 - 4 * i
        invariant v == Rounds(start, cbuf, w)
        invariant forall j :: 0 <= j < 64 ==> buf[j] == Schedule(cbuf, j)
      {
        FourRounds(start, cbuf, w);
        v := DoRound(v, Constant(kp), buf[w]);
        kp, w := kp + 1, w + 1;
        v := DoRound(v, Constant(kp), buf[w]);
        kp, w := kp + 1, w + 1;
        v := DoRound(v, Constant(kp), buf[w]);
        kp, w := kp + 1, w + 1;
        v := DoRound(v, Constant(kp), buf[w]);
        kp, w := kp + 1, w + 1;
      }
    }

    /** SHA256Guts */
    method Guts(cbuf: Block)
      requires hash.Length == 8
      modifies hash
      ensures HashVars() == Compress(old(HashVars()), cbuf)
    {
      hide Rounds, Add;
      var v := AllRounds(HashVars(), cbuf);
      hash[0] := Add(hash[0], v.a);
      hash[1] := Add(hash[1], v.b);
      hash[2] := Add(hash[2], v.c);
      hash[3] := Add(hash[3], v.d);
      hash[4] := Add(hash[4], v.e);
      hash[5] := Add(hash[5], v.f);
      hash[6] := Add(hash[6], v.g);
      hash[7] := Add(hash[7], v.h);
    }

    ghost function StateOf(): State
      requires Valid()
      reads this, hash, buffer
    {
      State(HashVars(), buffer[..bufferLength], totalLength)
    }

    /** sha256_init */
    constructor ()
      ensures Valid() && fresh(hash) && fresh(buffer)
      ensures StateOf() == State(INITIAL, [], 0)
    {
      hash := new bv32[8];
      buffer := new bv8[64];
      totalLength := 0;
      bufferLength := 0;
      new;
      hash[0] := 0x6a09e667;
      hash[1] := 0xbb67ae85;
      hash[2] := 0x3c6ef372;
      hash[3] := 0xa54ff53a;
      hash[4] := 0x510e527f;
      hash[5] := 0x9b05688c;
      hash[6] := 0x1f83d9ab;
      hash[7] := 0x5be0cd19;
    }

    /** Copy a piece behind the buffered bytes, and count it. */
    method Append(piece: seq<bv8>)
      requires Valid() && bufferLength + |piece| <= 64
      modifies this, buffer
      ensures hash.Length == 8 && buffer.Length == 64
      ensures bufferLength == old(bufferLength) + |piece|
      ensures totalLength == (old(totalLength) + 8 * |piece|) % LENGTH_LIMIT
      ensures buffer[..bufferLength] == old(buffer[..bufferLength]) + piece
    {
      for i := 0 to |piece|
        modifies buffer
        invariant buffer[..bufferLength + i] == old(buffer[..bufferLength]) + piece[..i]
      {
        buffer[bufferLength + i] := piece[i];
      }
      totalLength := (totalLength + |piece| * 8) % LENGTH_LIMIT;
      bufferLength := bufferLength + |piece|;
    }

    /** A piece goes into the buffer; a full buffer is hashed. */
    method Feed(piece: seq<bv8>)
      requires Valid() && bufferLength + |piece| <= 64
      modifies this, hash, buffer
      ensures Valid() && StateOf() == Absorb(old(StateOf()), piece)
      ensures bufferLength == if old(bufferLength) + |piece| == 64 then 0 else old(bufferLength) + |piece|
    {
      hide Compress, HashBlocks, Absorb;
      if bufferLength + |piece| < 64 { AbsorbPart(StateOf(), piece); } else { AbsorbFull(StateOf(), piece); }
      Append(piece);
      if bufferLength == 64 {
        assert buffer[..] == buffer[..64];
        Guts(buffer[..]);
        bufferLength := 0;
      }
    }

    /** sha256_update, the plain loop. */
    method Update(input: seq<bv8>)
      requires Valid()
      modifies this, hash, buffer
      ensures Valid() && StateOf() == Absorb(old(StateOf()), input)
    {
      hide Compress, HashBlocks, Absorb;
      var data := 0;
      AbsorbNothing(StateOf());
      assert input[..0] == [];
      while data < |input|
        invariant 0 <= data <= |input| && Valid()
        invariant StateOf() == Absorb(old(StateOf()), input[..data])
      {
        var bufferBytesLeft := 64 - bufferLength;
        var bytesToCopy := bufferBytesLeft;
        if bytesToCopy > |input| - data { bytesToCopy := |input| - data; }
        AbsorbTwice(old(StateOf()), input[..data], input[data..data + bytesToCopy]);
        assert input[..data] + input[data..data + bytesToCopy] == input[..data + bytesToCopy];
        Feed(input[data..data + bytesToCopy]);
        data := data + bytesToCopy;
      }
      assert input[..data] == input;
    }

    /** sha256_update with direct hashing of whole blocks of the input. */
    method UpdateFast(input: seq<bv8>)
      requires Valid()
      modifies this, hash, buffer
      ensures Valid() && StateOf() == Absorb(old(StateOf()), input)
    {
      hide Compress, HashBlocks, Absorb;
      var data := 0;
      AbsorbNothing(StateOf());
      assert input[..0] == [];
      if bufferLength != 0 {
        var bytesToCopy := 64 - bufferLength;
        if bytesToCopy > |input| { bytesToCopy := |input|; }
        Feed(input[..bytesToCopy]);
        data := bytesToCopy;
      }
      while |input| - data > 63
        invariant 0 <= data <= |input| && Valid()
        invariant data < |input| ==> bufferLength == 0
        invariant StateOf() == Absorb(old(StateOf()), input[..data])
      {
        HashDirectly(input[data..data + 64]);
        AbsorbTwice(old(StateOf()), input[..data], input[data..data + 64]);
        assert input[..data] + input[data..data + 64] == input[..data + 64];
        data := data + 64;
      }
      if data < |input| {
        AbsorbTwice(old(StateOf()), input[..data], input[data..]);
        assert input[..data] + input[data..] == input;
        AbsorbPart(StateOf(), input[data..]);
        Append(input[data..]);
      } else {
        assert input[..data] == input;
      }
    }

    /** A whole block of the input, with nothing buffered. */
    method HashDirectly(block: Block)
      requires Valid() && bufferLength == 0
      modifies this, hash
      ensures Valid() && bufferLength == 0 && StateOf() == Absorb(old(StateOf()), block)
    {
      hide Compress, HashBlocks, Absorb;
      AbsorbFull(StateOf(), block);
      assert buffer[..0] + block == block;
      totalLength := (totalLength + 512) % LENGTH_LIMIT;
      Guts(block);
    }

    /** sha256_final; without an output buffer the digest is dropped. */
    method Final(out: array?<bv8>)
      requires Valid() && (out != null ==> out.Length >= 32 && out != buffer)
      modifies this, hash, buffer, out
      ensures Valid() && StateOf() == Absorb(old(StateOf()), Tail(old(StateOf())))
      ensures out != null ==> out[..32] == DigestBytes(HashVars())
    {
      hide Compress, HashBlocks, Absorb, ByteSwap64, Bytes64, Padding, DigestBytes, LengthWord;
      ghost var st := StateOf();
      var bytesToPad := 120 - bufferLength;
      if bytesToPad > 64 { bytesToPad := bytesToPad - 64; }
      var lengthPad := ByteSwap64(LengthWord(totalLength));
      AbsorbTwice(st, Padding(bytesToPad), Bytes64(lengthPad));
      Update(Padding(bytesToPad));
      Update(Bytes64(lengthPad));
      if out != null { Emit(out); }
    }

    /** The digest loop of final. */
    method Emit(out: array<bv8>)
      requires hash.Length == 8 && out.Length >= 32
      modifies out
      ensures out[..32] == DigestBytes(HashVars())
      ensures HashVars() == old(HashVars())
    {
      hide WordBytes, BytesOf;
      NoBytes();
      for i := 0 to 8
        invariant HashVars() == old(HashVars()) && hash[..] == old(hash[..])
        invariant out[..4 * i] == BytesOf(hash[..i])
      {
        assert hash[..i + 1] == hash[..i] + [hash[i]];
        OneMoreWord(hash[..i], hash[i]);
        EmitWord(out, 4 * i, hash[i]);
      }
      assert hash[..8] == [hash[0], hash[1], hash[2], hash[3], hash[4], hash[5], hash[6], hash[7]];
    }

    static method EmitWord(out: array<bv8>, at: nat, word: bv32)
      requires at + 4 <= out.Length
      modifies out
      ensures out[..at + 4] == old(out[..at]) + WordBytes(word)
    {
      hide WordBytes;
      var bytes := WordBytes(word);
      out[at] := bytes[0];
      out[at + 1] := bytes[1];
      out[at + 2] := bytes[2];
      out[at + 3] := bytes[3];
    }
  }

  /** A message in any number of pieces of any length has the digest of their concatenation. */
  method HashPieces(pieces: seq<seq<bv8>>, out: array<bv8>)
    requires out.Length >= 32
    modifies out
    ensures out[..32] == Sha256Spec.Sha256(Flatten(pieces))
  {
    hide Compress, HashBlocks, Absorb, Tail, Pad, DigestBytes;
    var context := new Context();
    AbsorbNothing(START);
    for n := 0 to |pieces|
      invariant fresh(context) && fresh(context.hash) && fresh(context.buffer) && context.Valid()
      invariant context.StateOf() == Absorb(START, Flatten(pieces[..n]))
    {
      AbsorbTwice(START, Flatten(pieces[..n]), pieces[n]);
      assert pieces[..n + 1][..n] == pieces[..n];
      context.Update(pieces[n]);
    }
    assert pieces[..|pieces|] == pieces;
    FinalHash(Flatten(pieces));
    context.Final(out);
  }

  lemma NoRounds(v: Vars, cbuf: Block)
    ensures Rounds(v, cbuf, 0) == v
  {
  }
}
