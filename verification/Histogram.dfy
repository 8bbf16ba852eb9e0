/** Bit histograms of files: one thread reading file after file, and any number of workers with local
    histograms merged under a mutex.  Counts are unbounded. */
module Histogram {
  import opened Options

  /** The bytes of a file, or nothing when it cannot be opened. */
  type File = Option<seq<bv8>>

  predicate BitSet(b: bv8, k: nat)
    requires k < 8
  {
    b & ((1 as bv8) << k) != 0
  }

  function Bit(b: bv8, k: nat): int
    requires k < 8
  {
    if BitSet(b, k) then 1 else 0
  }

  /** The bits of a byte, weighted by their positions, make the byte. */
  lemma BitsMakeByte(b: bv8)
    ensures b as int == Bit(b, 0) + 2 * Bit(b, 1) + 4 * Bit(b, 2) + 8 * Bit(b, 3)
      + 16 * Bit(b, 4) + 32 * Bit(b, 5) + 64 * Bit(b, 6) + 128 * Bit(b, 7)
    ensures forall k: nat :: k < 8 ==> 0 <= Bit(b, k) <= 1
  {
  }

  /** How many of the bytes have bit `k` set. */
  function Ones(bytes: seq<bv8>, k: nat): int
    requires k < 8
  {
    if bytes == [] then 0 else Ones(bytes[..|bytes| - 1], k) + Bit(bytes[|bytes| - 1], k)
  }

  function Bytes(file: File): seq<bv8> {
    if file.Some? then file.value else []
  }

  /** All bytes of the files that can be opened. */
  function AllBytes(files: seq<File>): seq<bv8> {
    if files == [] then [] else AllBytes(files[..|files| - 1]) + Bytes(files[|files| - 1])
  }

  /** One more file adds its bytes, or nothing when it cannot be opened. */
  lemma AllBytesLaws(files: seq<File>, bytes: seq<bv8>)
    ensures AllBytes([]) == []
    ensures AllBytes(files + [Some(bytes)]) == AllBytes(files) + bytes
    ensures AllBytes(files + [None]) == AllBytes(files)
  {
    assert (files + [Some(bytes)])[..|files|] == files;
    assert (files + [None])[..|files|] == files;
  }

  /** Counting starts at zero and goes up by the bits of each byte. */
  lemma OnesLaws(bytes: seq<bv8>, b: bv8, k: nat)
    requires k < 8
    ensures Ones([], k) == 0
    ensures Ones(bytes + [b], k) == Ones(bytes, k) + if BitSet(b, k) then 1 else 0
  {
    hide BitSet;
    OnesSnoc(bytes, b, k);
  }

  lemma {:induction false} OnesConcat(a: seq<bv8>, b: seq<bv8>, k: nat)
    requires k < 8
    ensures Ones(a + b, k) == Ones(a, k) + Ones(b, k)
  {
    if b == [] {
      assert a + b == a;
    } else {
      var n := |b| - 1;
      assert (a + b)[..|a| + n] == a + b[..n];
      OnesConcat(a, b[..n], k);
    }
  }

  lemma OnesSnoc(a: seq<bv8>, b: bv8, k: nat)
    requires k < 8
    ensures Ones(a + [b], k) == Ones(a, k) + Bit(b, k)
  {
    assert (a + [b])[..|a|] == a;
  }

  lemma OnesFirst(a: seq<bv8>, k: nat)
    requires k < 8 && a != []
    ensures Ones(a, k) == Bit(a[0], k) + Ones(a[1..], k)
  {
    assert a == [a[0]] + a[1..];
    OnesConcat([a[0]], a[1..], k);
    OnesSnoc([], a[0], k);
    assert [] + [a[0]] == [a[0]];
  }

  // ----- the sequential program -----

  /** Adds `from` to `to` and clears `from`. */
  method MergeHistogram(from: array<int>, to: array<int>)
    requires from.Length == 8 && to.Length == 8 && from != to
    modifies from, to
    ensures forall k :: 0 <= k < 8 ==> to[k] == old(to[k]) + old(from[k]) && from[k] == 0
  {
    for i := 0 to 8
      invariant forall k :: 0 <= k < i ==> to[k] == old(to[k]) + old(from[k]) && from[k] == 0
      invariant forall k :: i <= k < 8 ==> to[k] == old(to[k]) && from[k] == old(from[k])
    {
      to[i] := to[i] + from[i];
      from[i] := 0;
    }
  }

  /** Counts the bits of one byte. */
  method UpdateHistogram(histogram: array<int>, b: bv8)
    requires histogram.Length == 8
    modifies histogram
    ensures forall k :: 0 <= k < 8 ==> histogram[k] == old(histogram[k]) + Bit(b, k)
  {
    hide BitSet;
    for i := 0 to 8
      invariant forall k :: 0 <= k < i ==> histogram[k] == old(histogram[k]) + Bit(b, k)
      invariant forall k :: i <= k < 8 ==> histogram[k] == old(histogram[k])
    {
      if BitSet(b, i) {
        histogram[i] := histogram[i] + 1;
      }
    }
  }

  const MERGE_EVERY: nat := 100000

  /** Adds the bits of one file to the global histogram, merging every so many bytes. */
  method FHistogram(file: File, global: array<int>) returns (code: int)
    requires global.Length == 8
    modifies global
    ensures file.None? ==> code == -1 && global[..] == old(global[..])
    ensures file.Some? ==> code == 0 && forall k :: 0 <= k < 8 ==> global[k] == old(global[k]) + Ones(file.value, k)
  {
    hide Bit;
    var local := new int[8](_ => 0);
    if file.None? {
      return -1;
    }
    var bytes, i := file.value, 0;
    while i < |bytes|
      invariant 0 <= i <= |bytes|
      invariant forall k :: 0 <= k < 8 ==> global[k] + local[k] == old(global[k]) + Ones(bytes[..i], k)
    {
      var c := bytes[i];
      assert bytes[..i + 1] == bytes[..i] + [c];
      forall k | 0 <= k < 8
        ensures Ones(bytes[..i + 1], k) == Ones(bytes[..i], k) + Bit(c, k)
      {
        OnesSnoc(bytes[..i], c, k);
      }
      i := i + 1;
      UpdateHistogram(local, c);
      if i % MERGE_EVERY == 0 {
        MergeHistogram(local, global);
      }
    }
    assert bytes[..i] == bytes;
    MergeHistogram(local, global);
    return 0;
  }

  /** The sequential program: file after file. */
  method Sequential(files: seq<File>) returns (global: array<int>)
    ensures global.Length == 8 && forall k :: 0 <= k < 8 ==> global[k] == Ones(AllBytes(files), k)
  {
    global := new int[8](_ => 0);
    for n := 0 to |files|
      invariant global.Length == 8
      invariant forall k :: 0 <= k < 8 ==> global[k] == Ones(AllBytes(files[..n]), k)
    {
      var _ := FHistogram(files[n], global);
      forall k | 0 <= k < 8
        ensures Ones(AllBytes(files[..n + 1]), k) == Ones(AllBytes(files[..n]), k) + Ones(Bytes(files[n]), k)
      {
        TakeFile(files, n, k);
      }
    }
    assert files[..|files|] == files;
  }

  lemma TakeFile(files: seq<File>, n: nat, k: nat)
    requires n < |files| && k < 8
    ensures Ones(AllBytes(files[..n + 1]), k) == Ones(AllBytes(files[..n]), k) + Ones(Bytes(files[n]), k)
  {
    assert files[..n + 1][..n] == files[..n];
    OnesConcat(AllBytes(files[..n]), Bytes(files[n]), k);
  }
}
