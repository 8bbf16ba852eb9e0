/** The small-block allocator: segregated free lists whose links live inside the free
    blocks, and a size word in front of every live block.  Addresses are byte addresses of
    aligned 4-byte words. */
module Allocator {
  import opened Pointers

  const SMALL_BLOCK_LIMIT: int := 4096
  const MIN_ALLOCATION: int := 100
  const BLOCK_SIZE_STEP: int := 8
  const NUM_SIZES: int := 512  // SMALL_BLOCK_LIMIT / BLOCK_SIZE_STEP
  const WORD: int := 4

  /** Size of the block that serves a request: the size word added, rounded up to a step. */
  function BlockSize(request: nat): nat {
    (request + WORD + BLOCK_SIZE_STEP - 1) / BLOCK_SIZE_STEP * BLOCK_SIZE_STEP
  }

  /** 32-bit signed arithmetic. */
  function Wrap(n: int): int { (n + 0x8000_0000) % 0x1_0000_0000 - 0x8000_0000 }

  /** The size of the block for a request, in 32-bit arithmetic. */
  function RoundedSize(request: int): int {
    var size := Wrap(request + WORD);
    var offset := size % BLOCK_SIZE_STEP;
    if offset != 0 then Wrap(size - offset + BLOCK_SIZE_STEP) else size
  }

  const MAX_REQUEST: int := 0x7fff_fff4

  lemma WrapRange(n: int)
    requires 0 <= n < 0x1_0000_0000
    ensures Wrap(n) == if n < 0x8000_0000 then n else n - 0x1_0000_0000
  {
  }

  lemma BlockSizeRounds(request: nat)
    ensures var size := request + WORD; var offset := size % BLOCK_SIZE_STEP;
      BlockSize(request) == if offset != 0 then size - offset + BLOCK_SIZE_STEP else size
    ensures BlockSize(request) % BLOCK_SIZE_STEP == 0 && BlockSize(request) >= request + WORD
  {
  }

  /** The block of a request is the smallest multiple of eight bytes with room for the request and four more. */
  lemma BlockSizeLeast(request: nat, size: nat)
    ensures BlockSize(request) % 8 == 0 && BlockSize(request) >= request + 4
    ensures size % 8 == 0 && size >= request + 4 ==> size >= BlockSize(request)
    ensures BlockSize(request) >= SMALL_BLOCK_LIMIT <==> request > 4084
  {
  }

  /** The number of blocks in a chunk: ten, or as many of the smallest as fit in a hundred bytes. */
  function ChunkBlocks(size: nat): nat { if size == 8 then 12 else 10 }

  /** The addresses of `n` blocks of a size from an address on. */
  function Chunk(address: int, size: int, n: nat): (blocks: seq<int>)
    ensures |blocks| == n
    decreases n
  {
    if n == 0 then [] else [address] + Chunk(address + size, size, n - 1)
  }

  lemma ChunkFront(address: int, size: int, n: nat)
    ensures Chunk(address, size, n + 1) == [address] + Chunk(address + size, size, n)
    ensures Chunk(address, size, 0) == []
  {
  }

  lemma {:induction false} ChunkAt(address: int, size: int, n: nat, i: nat)
    requires i < n
    ensures Chunk(address, size, n)[i] == address + i * size
    decreases n
  {
    if i > 0 { ChunkAt(address + size, size, n - 1, i - 1); }
  }

  /** The arithmetic overflows, and the list index turns negative, exactly for the eleven largest integers. */
  lemma RoundedSizeExact(request: int)
    requires 1 <= request < 0x8000_0000
    ensures RoundedSize(request) / BLOCK_SIZE_STEP < 0 <==> request > MAX_REQUEST
    ensures RoundedSize(request) == BlockSize(request) <==> request <= MAX_REQUEST
  {
    hide Wrap, BlockSize;
    BlockSizeRounds(request);
    var size := request + WORD;
    WrapRange(size);
    var low := Wrap(size);
    assert low % BLOCK_SIZE_STEP == size % BLOCK_SIZE_STEP;
    if 0 <= low { WrapRange(low - low % BLOCK_SIZE_STEP + BLOCK_SIZE_STEP); } else { WrapNegative(low); }
  }

  lemma WrapNegative(low: int)
    requires -0x8000_0000 <= low < -0x7fff_fff0
    ensures Wrap(low - low % BLOCK_SIZE_STEP + BLOCK_SIZE_STEP) < 0
  {
  }

  /** A word of memory; words never written read as zero. */
  function Load(mem: map<int, int>, a: int): int {
    if a in mem then mem[a] else 0
  }

  function First(list: seq<int>): int {
    if list == [] then NULL else list[0]
  }

  function Next(list: seq<int>, i: nat): int {
    if i + 1 < |list| then list[i + 1] else NULL
  }

  // ----- the heap invariant, over plain values -----

  ghost predicate TileBounds(start: int, end: int, lo: int, limit: int, tiles: map<int, int>) {
    forall a :: a in tiles ==>
      && a % WORD == 0
      && BLOCK_SIZE_STEP <= tiles[a] < SMALL_BLOCK_LIMIT
      && tiles[a] % BLOCK_SIZE_STEP == 0
      && ((start <= a && a + tiles[a] <= end) || (lo <= a && a + tiles[a] <= limit))
  }

  ghost predicate TilesDisjoint(tiles: map<int, int>) {
    forall a, b :: a in tiles && b in tiles && a < b ==> a + tiles[a] <= b
  }

  /** Blocks fill `start..end` and `lo..limit`: each region starts with a block, and a block
      is followed by another one or by the end of a region. */
  ghost predicate Tiling(start: int, end: int, lo: int, limit: int, tiles: map<int, int>) {
    && 0 < start <= end <= lo <= limit
    && start % WORD == 0 && end % WORD == 0 && lo % WORD == 0 && limit % WORD == 0
    && TileBounds(start, end, lo, limit, tiles)
    && TilesDisjoint(tiles)
    && (start == end || start in tiles)
    && (lo == limit || lo in tiles)
    && forall a :: a in tiles ==> a + tiles[a] == end || a + tiles[a] == limit || a + tiles[a] in tiles
  }

  /** Every list is linked through the first word of its blocks, has no repeated block, and
      list `k` holds blocks of size `8k` only. */
  ghost predicate Lists(mem: map<int, int>, headers: seq<int>, free: seq<seq<int>>, tiles: map<int, int>) {
    && |headers| == |free| == NUM_SIZES
    && (forall k :: 0 <= k < NUM_SIZES ==> headers[k] == First(free[k]))
    && (forall k, i :: 0 <= k < NUM_SIZES && 0 <= i < |free[k]| ==>
          && free[k][i] in tiles
          && tiles[free[k][i]] == k * BLOCK_SIZE_STEP
          && Load(mem, free[k][i]) == Next(free[k], i))
    && (forall k, i, j :: 0 <= k < NUM_SIZES && 0 <= i < j < |free[k]| ==> free[k][i] != free[k][j])
  }

  /** Block `a` is on the free list of its size. */
  ghost predicate OnFreeList(a: int, free: seq<seq<int>>, tiles: map<int, int>) {
    a in tiles && 0 <= tiles[a] / BLOCK_SIZE_STEP < |free| && a in free[tiles[a] / BLOCK_SIZE_STEP]
  }

  /** A block other than `except` is either live or on the free list of its size, never both. */
  ghost predicate Partition(free: seq<seq<int>>, tiles: map<int, int>, blocks: map<int, seq<int>>, except: set<int>) {
    forall a :: a in tiles && a !in except ==> (a + WORD in blocks <==> !OnFreeList(a, free, tiles))
  }

  /** The block in front of payload `p` keeps its size there, and holds these words. */
  ghost predicate SizedBlock(mem: map<int, int>, tiles: map<int, int>, p: int, words: seq<int>) {
    && p - WORD in tiles
    && tiles[p - WORD] == WORD + WORD * |words|
    && Load(mem, p - WORD) == tiles[p - WORD]
    && forall i :: 0 <= i < |words| ==> Load(mem, p + WORD * i) == words[i]
  }

  /** The live blocks; `blocks` is what the client sees. */
  ghost predicate Live(mem: map<int, int>, tiles: map<int, int>, blocks: map<int, seq<int>>) {
    forall p :: p in blocks ==> SizedBlock(mem, tiles, p, blocks[p])
  }

  // ----- one step of each kind keeps the invariant -----

  lemma WordsBelow(lo: int, size: int)
    requires lo % WORD == 0 && size % BLOCK_SIZE_STEP == 0
    ensures (lo - size) % WORD == 0
  {
    assert lo - size == WORD * (lo / WORD - 2 * (size / BLOCK_SIZE_STEP));
  }

  lemma NewTileBounds(start: int, end: int, lo: int, limit: int, tiles: map<int, int>, size: int)
    requires TileBounds(start, end, lo, limit, tiles) && (lo - size) % WORD == 0
    requires BLOCK_SIZE_STEP <= size < SMALL_BLOCK_LIMIT && size % BLOCK_SIZE_STEP == 0
    requires end <= lo - size && lo <= limit
    ensures TileBounds(start, end, lo - size, limit, tiles[lo - size := size])
    ensures lo - size !in tiles
  {
  }

  lemma NewTileDisjoint(start: int, end: int, lo: int, limit: int, tiles: map<int, int>, size: int)
    requires TileBounds(start, end, lo, limit, tiles) && TilesDisjoint(tiles)
    requires 0 < size && end <= lo - size && lo - size !in tiles
    ensures TilesDisjoint(tiles[lo - size := size])
  {
    var tiles' := tiles[lo - size := size];
    forall x, y | x in tiles' && y in tiles' && x < y
      ensures x + tiles'[x] <= y
    {
      if x in tiles && y in tiles { assert x + tiles[x] <= y; }
    }
  }

  lemma AddTile(start: int, end: int, lo: int, limit: int, tiles: map<int, int>, size: int)
    requires Tiling(start, end, lo, limit, tiles)
    requires BLOCK_SIZE_STEP <= size < SMALL_BLOCK_LIMIT && size % BLOCK_SIZE_STEP == 0
    requires end <= lo - size
    ensures Tiling(start, end, lo - size, limit, tiles[lo - size := size])
    ensures lo - size !in tiles
  {
    hide TileBounds, TilesDisjoint;
    WordsBelow(lo, size);
    NewTileBounds(start, end, lo, limit, tiles, size);
    NewTileDisjoint(start, end, lo, limit, tiles, size);
  }

  /** A block just carved out of the free space is neither live nor on a list yet. */
  lemma AddFreshTile(mem: map<int, int>, headers: seq<int>, free: seq<seq<int>>, tiles: map<int, int>,
                     blocks: map<int, seq<int>>, a: int, size: int)
    requires Lists(mem, headers, free, tiles) && Partition(free, tiles, blocks, {}) && Live(mem, tiles, blocks)
    requires a !in tiles
    ensures var tiles' := tiles[a := size];
      && Lists(mem, headers, free, tiles')
      && Partition(free, tiles', blocks, {a})
      && Live(mem, tiles', blocks)
      && a + WORD !in blocks
      && forall k :: 0 <= k < NUM_SIZES ==> a !in free[k]
  {
    var tiles' := tiles[a := size];
    forall b | b in tiles
      ensures OnFreeList(b, free, tiles') <==> OnFreeList(b, free, tiles)
    {
    }
  }

  lemma PushLists(mem: map<int, int>, headers: seq<int>, free: seq<seq<int>>, tiles: map<int, int>, a: int, k: int)
    requires Lists(mem, headers, free, tiles)
    requires 0 <= k < NUM_SIZES && a in tiles && tiles[a] == k * BLOCK_SIZE_STEP && a !in free[k]
    ensures Lists(mem[a := headers[k]], headers[k := a], free[k := [a] + free[k]], tiles)
  {
    var mem', free' := mem[a := headers[k]], free[k := [a] + free[k]];
    forall m, i | 0 <= m < NUM_SIZES && 0 <= i < |free'[m]|
      ensures free'[m][i] in tiles && tiles[free'[m][i]] == m * BLOCK_SIZE_STEP
      ensures Load(mem', free'[m][i]) == Next(free'[m], i)
    {
      if m == k {
        assert i > 0 ==> free'[m][i] == free[m][i - 1];
      } else {
        assert free'[m][i] == free[m][i];
      }
    }
  }

  lemma PushPartition(free: seq<seq<int>>, tiles: map<int, int>, blocks: map<int, seq<int>>, a: int, k: int)
    requires |free| == NUM_SIZES && Partition(free, tiles, blocks, {a})
    requires 0 <= k < NUM_SIZES && a in tiles && tiles[a] == k * BLOCK_SIZE_STEP && a + WORD !in blocks
    ensures Partition(free[k := [a] + free[k]], tiles, blocks, {})
  {
    var free' := free[k := [a] + free[k]];
    forall b | b in tiles
      ensures b + WORD in blocks <==> !OnFreeList(b, free', tiles)
    {
      if b == a {
        assert tiles[b] / BLOCK_SIZE_STEP == k;
        assert free'[k][0] == a;
      } else {
        assert OnFreeList(b, free', tiles) <==> OnFreeList(b, free, tiles);
      }
    }
  }

  /** Linking block `a` in front of list `k` (the last steps of a release and of each turn of
      the chunk-splitting loop). */
  lemma PushFree(mem: map<int, int>, headers: seq<int>, free: seq<seq<int>>, tiles: map<int, int>,
                 blocks: map<int, seq<int>>, a: int, k: int)
    requires Lists(mem, headers, free, tiles)
    requires Partition(free, tiles, blocks, {a})
    requires 0 <= k < NUM_SIZES && a in tiles && tiles[a] == k * BLOCK_SIZE_STEP
    requires a !in free[k] && a + WORD !in blocks
    ensures var free' := free[k := [a] + free[k]];
      && Lists(mem[a := headers[k]], headers[k := a], free', tiles)
      && Partition(free', tiles, blocks, {})
  {
    assert |free| == NUM_SIZES;
    hide Lists, Partition;
    PushLists(mem, headers, free, tiles, a, k);
    PushPartition(free, tiles, blocks, a, k);
  }

  /** Unlinking the first block of list `k` ... */
  lemma PopLists(mem: map<int, int>, headers: seq<int>, free: seq<seq<int>>, tiles: map<int, int>, k: int, v: int)
    requires Lists(mem, headers, free, tiles)
    requires 0 <= k < NUM_SIZES && free[k] != []
    ensures var a := free[k][0];
      Lists(mem[a := v], headers[k := Load(mem, a)], free[k := free[k][1..]], tiles)
  {
    var a, free' := free[k][0], free[k := free[k][1..]];
    forall m, i | 0 <= m < NUM_SIZES && 0 <= i < |free'[m]|
      ensures free'[m][i] in tiles && tiles[free'[m][i]] == m * BLOCK_SIZE_STEP
      ensures Load(mem[a := v], free'[m][i]) == Next(free'[m], i)
    {
      if m == k {
        assert free'[m][i] == free[m][i + 1];
      } else {
        assert free'[m][i] == free[m][i];
      }
    }
  }

  lemma FrontOf(mem: map<int, int>, headers: seq<int>, free: seq<seq<int>>, tiles: map<int, int>, k: int)
    requires Lists(mem, headers, free, tiles)
    requires 0 <= k < NUM_SIZES && free[k] != []
    ensures headers[k] == free[k][0]
  {
  }

  lemma BlockAddress(start: int, end: int, tiles: map<int, int>, a: int)
    requires Tiling(start, end, end, end, tiles) && a in tiles
    ensures 0 < start <= a < end
  {
  }

  lemma FrontBlock(mem: map<int, int>, headers: seq<int>, free: seq<seq<int>>, tiles: map<int, int>, k: int)
    requires Lists(mem, headers, free, tiles)
    requires 0 <= k < NUM_SIZES && free[k] != []
    ensures var a := free[k][0];
      |free| == NUM_SIZES && a in tiles && tiles[a] == k * BLOCK_SIZE_STEP && a !in free[k][1..]
  {
  }

  lemma PopOne(free: seq<seq<int>>, tiles: map<int, int>, k: int, b: int)
    requires |free| == NUM_SIZES && 0 <= k < NUM_SIZES && free[k] != [] && b != free[k][0]
    ensures OnFreeList(b, free[k := free[k][1..]], tiles) <==> OnFreeList(b, free, tiles)
  {
    assert free[k] == [free[k][0]] + free[k][1..];
  }

  /** ... and counting it as live. */
  lemma PopPartition(mem: map<int, int>, headers: seq<int>, free: seq<seq<int>>, tiles: map<int, int>,
                     blocks: map<int, seq<int>>, k: int, payload: seq<int>)
    requires Lists(mem, headers, free, tiles)
    requires Partition(free, tiles, blocks, {})
    requires 0 <= k < NUM_SIZES && free[k] != []
    ensures var a := free[k][0];
      && a in tiles && tiles[a] == k * BLOCK_SIZE_STEP && a + WORD !in blocks
      && Partition(free[k := free[k][1..]], tiles, blocks[a + WORD := payload], {})
  {
    hide Lists, OnFreeList;
    FrontBlock(mem, headers, free, tiles, k);
    var a, free' := free[k][0], free[k := free[k][1..]];
    FrontListed(free, tiles, k);
    forall b | b in tiles
      ensures b + WORD in blocks[a + WORD := payload] <==> !OnFreeList(b, free', tiles)
    {
      if b != a { PopOne(free, tiles, k, b); }
    }
  }

  lemma FrontListed(free: seq<seq<int>>, tiles: map<int, int>, k: int)
    requires |free| == NUM_SIZES && 0 <= k < NUM_SIZES && free[k] != []
    requires var a := free[k][0]; a in tiles && tiles[a] == k * BLOCK_SIZE_STEP && a !in free[k][1..]
    ensures OnFreeList(free[k][0], free, tiles) && !OnFreeList(free[k][0], free[k := free[k][1..]], tiles)
  {
    assert tiles[free[k][0]] / BLOCK_SIZE_STEP == k;
  }

  /** Two blocks that share an address are the same block. */
  lemma SameTile(start: int, end: int, lo: int, limit: int, tiles: map<int, int>, a: int, b: int, x: int)
    requires Tiling(start, end, lo, limit, tiles)
    requires a in tiles && b in tiles
    requires a <= x < a + tiles[a] && b <= x < b + tiles[b]
    ensures a == b
  {
  }

  /** A block that is not live contains no word of a live one. */
  lemma NotItsWord(start: int, end: int, lo: int, limit: int, tiles: map<int, int>, mem: map<int, int>,
                   blocks: map<int, seq<int>>, a: int, p: int, i: nat)
    requires Tiling(start, end, lo, limit, tiles) && Live(mem, tiles, blocks)
    requires a in tiles && a + WORD !in blocks && p in blocks && i < |blocks[p]|
    ensures p + WORD * i != a
  {
    LiveTile(mem, tiles, blocks, p);
    hide Live, TilesDisjoint;
    if p + WORD * i == a { SameTile(start, end, lo, limit, tiles, p - WORD, a, a); }
  }

  lemma LiveTile(mem: map<int, int>, tiles: map<int, int>, blocks: map<int, seq<int>>, p: int)
    requires Live(mem, tiles, blocks) && p in blocks
    ensures p - WORD in tiles && tiles[p - WORD] == WORD + WORD * |blocks[p]|
  {
  }

  lemma BlockFrame(start: int, end: int, lo: int, limit: int, tiles: map<int, int>, mem: map<int, int>,
                   blocks: map<int, seq<int>>, a: int, v: int, p: int)
    requires Tiling(start, end, lo, limit, tiles) && Live(mem, tiles, blocks)
    requires a in tiles && a + WORD !in blocks && p in blocks
    ensures SizedBlock(mem[a := v], tiles, p, blocks[p])
  {
    hide Tiling, Live;
    LiveIs(mem, tiles, blocks, p);
    forall i | 0 <= i < |blocks[p]|
      ensures p + WORD * i != a
    {
      NotItsWord(start, end, lo, limit, tiles, mem, blocks, a, p, i);
    }
  }

  lemma LiveIs(mem: map<int, int>, tiles: map<int, int>, blocks: map<int, seq<int>>, p: int)
    requires Live(mem, tiles, blocks) && p in blocks
    ensures SizedBlock(mem, tiles, p, blocks[p])
  {
    hide SizedBlock;
  }

  /** Writing the link word of a block that is not live leaves every live block alone. */
  lemma LiveFrame(start: int, end: int, lo: int, limit: int, tiles: map<int, int>, mem: map<int, int>,
                  blocks: map<int, seq<int>>, a: int, v: int)
    requires Tiling(start, end, lo, limit, tiles)
    requires Live(mem, tiles, blocks)
    requires a in tiles && a + WORD !in blocks
    ensures Live(mem[a := v], tiles, blocks)
  {
    hide Tiling, SizedBlock;
    forall p | p in blocks
      ensures SizedBlock(mem[a := v], tiles, p, blocks[p])
    {
      BlockFrame(start, end, lo, limit, tiles, mem, blocks, a, v, p);
    }
  }

  /** One turn of the chunk-splitting loop: the `size` bytes below `lo` become a block at the
      front of list `k`. */
  lemma SplitStep(start: int, end: int, lo: int, limit: int, tiles: map<int, int>, mem: map<int, int>,
                  headers: seq<int>, free: seq<seq<int>>, blocks: map<int, seq<int>>, k: int, size: int)
    requires Tiling(start, end, lo, limit, tiles)
    requires Lists(mem, headers, free, tiles) && Partition(free, tiles, blocks, {}) && Live(mem, tiles, blocks)
    requires 0 < k < NUM_SIZES && size == k * BLOCK_SIZE_STEP && end <= lo - size
    ensures var a := lo - size; var tiles' := tiles[a := size]; var mem' := mem[a := headers[k]];
      var free' := free[k := [a] + free[k]];
      && Tiling(start, end, a, limit, tiles')
      && Lists(mem', headers[k := a], free', tiles')
      && Partition(free', tiles', blocks, {})
      && Live(mem', tiles', blocks)
  {
    hide Tiling, Lists, Partition, Live;
    var a := lo - size;
    var tiles' := tiles[a := size];
    AddTile(start, end, lo, limit, tiles, size);
    AddFreshTile(mem, headers, free, tiles, blocks, a, size);
    LiveFrame(start, end, a, limit, tiles', mem, blocks, a, headers[k]);
    PushFree(mem, headers, free, tiles', blocks, a, k);
  }

  /** The lists of a heap that has not handed out anything. */
  lemma NoLists(mem: map<int, int>, free: seq<seq<int>>)
    requires free == seq(NUM_SIZES, i => [])
    ensures forall headers :: |headers| == NUM_SIZES && (forall i :: 0 <= i < NUM_SIZES ==> headers[i] == NULL) ==>
      Lists(mem, headers, free, map[])
  {
  }

  /** A null header means an empty list: no block starts at address zero. */
  lemma EmptyList(start: int, end: int, tiles: map<int, int>, mem: map<int, int>, headers: seq<int>,
                  free: seq<seq<int>>, k: int)
    requires Tiling(start, end, end, end, tiles) && Lists(mem, headers, free, tiles)
    requires 0 <= k < NUM_SIZES
    ensures headers[k] == NULL <==> free[k] == []
  {
    if free[k] != [] {
      assert free[k][0] in tiles;
    }
  }

  /** The payload of block `a` as it lies in memory. */
  ghost function PayloadAt(mem: map<int, int>, a: int, n: nat): seq<int> {
    seq(n, i requires 0 <= i < n => Load(mem, a + WORD + WORD * i))
  }

  /** A block that was not live becomes live when its size is written in front of it. */
  lemma LiveAdd(start: int, end: int, tiles: map<int, int>, mem: map<int, int>, blocks: map<int, seq<int>>,
                a: int, n: nat)
    requires Tiling(start, end, end, end, tiles) && Live(mem, tiles, blocks)
    requires a in tiles && a + WORD !in blocks && tiles[a] == WORD + WORD * n
    ensures var mem' := mem[a := tiles[a]];
      Live(mem', tiles, blocks[a + WORD := PayloadAt(mem', a, n)])
  {
    LiveFrame(start, end, end, end, tiles, mem, blocks, a, tiles[a]);
  }

  /** The word in front of a live payload gives back the list the block came from ... */
  lemma SizeWord(start: int, end: int, tiles: map<int, int>, mem: map<int, int>, blocks: map<int, seq<int>>, p: int)
    requires Tiling(start, end, end, end, tiles) && Live(mem, tiles, blocks) && p in blocks
    ensures var size := Load(mem, p - WORD);
      && p - WORD in tiles && size == tiles[p - WORD]
      && 0 < size / BLOCK_SIZE_STEP < NUM_SIZES && size == size / BLOCK_SIZE_STEP * BLOCK_SIZE_STEP
  {
  }

  /** ... and a released block is the one block neither live nor listed, until it is linked. */
  lemma Unlive(tiles: map<int, int>, mem: map<int, int>, free: seq<seq<int>>, blocks: map<int, seq<int>>, p: int)
    requires Partition(free, tiles, blocks, {}) && Live(mem, tiles, blocks) && p in blocks
    requires |free| == NUM_SIZES && 0 <= tiles[p - WORD] / BLOCK_SIZE_STEP < NUM_SIZES
    ensures Partition(free, tiles, blocks - {p}, {p - WORD}) && Live(mem, tiles, blocks - {p})
    ensures p - WORD !in free[tiles[p - WORD] / BLOCK_SIZE_STEP]
  {
    assert !OnFreeList(p - WORD, free, tiles);
  }

  lemma ReleaseKeeps(start: int, end: int, tiles: map<int, int>, mem: map<int, int>, headers: seq<int>,
                     free: seq<seq<int>>, blocks: map<int, seq<int>>, p: int)
    requires Tiling(start, end, end, end, tiles) && Lists(mem, headers, free, tiles)
    requires Partition(free, tiles, blocks, {}) && Live(mem, tiles, blocks) && p in blocks
    ensures var a, k := p - WORD, Load(mem, p - WORD) / BLOCK_SIZE_STEP;
      && 0 < k < NUM_SIZES
      && var mem', free' := mem[a := headers[k]], free[k := [a] + free[k]];
      && Lists(mem', headers[k := a], free', tiles)
      && Partition(free', tiles, blocks - {p}, {})
      && Live(mem', tiles, blocks - {p})
  {
    hide Tiling, Partition, Live;
    SizeWord(start, end, tiles, mem, blocks, p);
    Unlive(tiles, mem, free, blocks, p);
    var a, k := p - WORD, Load(mem, p - WORD) / BLOCK_SIZE_STEP;
    PushFree(mem, headers, free, tiles, blocks - {p}, a, k);
    LiveFrame(start, end, end, end, tiles, mem, blocks - {p}, a, headers[k]);
  }

  /** Which payloads are live matters to the partition, not what they hold. */
  lemma PartitionKeys(free: seq<seq<int>>, tiles: map<int, int>, blocks: map<int, seq<int>>, blocks': map<int, seq<int>>)
    requires Partition(free, tiles, blocks, {}) && blocks'.Keys == blocks.Keys
    ensures Partition(free, tiles, blocks', {})
  {
    hide OnFreeList;
  }

  /** A write inside a live payload changes no list link ... */
  lemma StoreKeepsLists(start: int, end: int, tiles: map<int, int>, mem: map<int, int>, headers: seq<int>,
                        free: seq<seq<int>>, blocks: map<int, seq<int>>, p: int, i: nat, v: int)
    requires Tiling(start, end, end, end, tiles) && Lists(mem, headers, free, tiles)
    requires Partition(free, tiles, blocks, {}) && Live(mem, tiles, blocks)
    requires p in blocks && i < |blocks[p]|
    ensures Lists(mem[p + WORD * i := v], headers, free, tiles)
  {
    var x := p + WORD * i;
    assert p - WORD in tiles;
    forall k, j | 0 <= k < NUM_SIZES && 0 <= j < |free[k]|
      ensures free[k][j] != x
    {
      var a := free[k][j];
      if a == x {
        SameTile(start, end, end, end, tiles, p - WORD, a, x);
      }
    }
  }

  /** A word of a live payload is no word of another live block. */
  lemma OtherBlock(start: int, end: int, tiles: map<int, int>, mem: map<int, int>, blocks: map<int, seq<int>>,
                   p: int, i: nat, q: int)
    requires Tiling(start, end, end, end, tiles) && Live(mem, tiles, blocks)
    requires p in blocks && i < |blocks[p]| && q in blocks
    ensures q - WORD != p + WORD * i
    ensures q != p ==> forall j :: 0 <= j < |blocks[q]| ==> q + WORD * j != p + WORD * i
  {
    var x := p + WORD * i;
    assert p - WORD in tiles && q - WORD in tiles;
    if q - WORD <= x < q - WORD + tiles[q - WORD] {
      SameTile(start, end, end, end, tiles, p - WORD, q - WORD, x);
    }
  }

  /** ... no size word and no other payload. */
  lemma StoreKeepsLive(start: int, end: int, tiles: map<int, int>, mem: map<int, int>,
                       blocks: map<int, seq<int>>, p: int, i: nat, v: int)
    requires Tiling(start, end, end, end, tiles) && Live(mem, tiles, blocks)
    requires p in blocks && i < |blocks[p]|
    ensures Live(mem[p + WORD * i := v], tiles, blocks[p := blocks[p][i := v]])
  {
    hide Tiling;
    var mem', blocks' := mem[p + WORD * i := v], blocks[p := blocks[p][i := v]];
    forall q | q in blocks'
      ensures q - WORD in tiles && tiles[q - WORD] == WORD + WORD * |blocks'[q]| && Load(mem', q - WORD) == tiles[q - WORD]
      ensures forall j :: 0 <= j < |blocks'[q]| ==> Load(mem', q + WORD * j) == blocks'[q][j]
    {
      OtherBlock(start, end, tiles, mem, blocks, p, i, q);
    }
  }

  /** A block of size `8k` can be on no list but list `k`. */
  lemma OnlyList(tiles: map<int, int>, mem: map<int, int>, headers: seq<int>, free: seq<seq<int>>, a: int, k: int)
    requires Lists(mem, headers, free, tiles) && 0 <= k < NUM_SIZES && a in free[k]
    ensures a in tiles && k == tiles[a] / BLOCK_SIZE_STEP
  {
    var i :| 0 <= i < |free[k]| && free[k][i] == a;
  }

  lemma FindBlock(start: int, end: int, tiles: map<int, int>, x: int) returns (a: int)
    requires Tiling(start, end, end, end, tiles) && start <= x < end
    ensures a in tiles && a <= x < a + tiles[a]
  {
    a := start;
    while a + tiles[a] <= x
      invariant a in tiles && a <= x
      decreases x - a
    {
      a := a + tiles[a];
    }
  }

  /** Each address between the heap start and the free space lies in exactly one block, and
      that block is live or on exactly one free list, but not both. */
  lemma EveryAddressInOneBlock(start: int, end: int, tiles: map<int, int>, mem: map<int, int>,
      headers: seq<int>, free: seq<seq<int>>, blocks: map<int, seq<int>>, x: int) returns (a: int)
    requires Tiling(start, end, end, end, tiles)
    requires Lists(mem, headers, free, tiles) && Partition(free, tiles, blocks, {})
    requires start <= x < end
    ensures a in tiles && a <= x < a + tiles[a]
    ensures forall b :: b in tiles && b <= x < b + tiles[b] ==> b == a
    ensures a + WORD in blocks <==> !exists k :: 0 <= k < NUM_SIZES && a in free[k]
    ensures forall j, k :: 0 <= j < NUM_SIZES && 0 <= k < NUM_SIZES && a in free[j] && a in free[k] ==> j == k
  {
    a := FindBlock(start, end, tiles, x);
    forall b | b in tiles && b <= x < b + tiles[b]
      ensures b == a
    {
      SameTile(start, end, end, end, tiles, a, b, x);
    }
    forall k | 0 <= k < NUM_SIZES && a in free[k]
      ensures k == tiles[a] / BLOCK_SIZE_STEP
    {
      OnlyList(tiles, mem, headers, free, a, k);
    }
    TileClass(start, end, tiles, a);
    hide Tiling, Lists;
    var k := tiles[a] / BLOCK_SIZE_STEP;
    assert OnFreeList(a, free, tiles) <==> a in free[k];
  }

  lemma TileClass(start: int, end: int, tiles: map<int, int>, a: int)
    requires Tiling(start, end, end, end, tiles) && a in tiles
    ensures 0 < tiles[a] / BLOCK_SIZE_STEP < NUM_SIZES
  {
  }

  /** Handing out free space opens an empty region above the blocks. */
  lemma GrowSpace(start: int, end: int, limit: int, tiles: map<int, int>)
    requires Tiling(start, end, end, end, tiles)
    requires end <= limit && (limit - end) % WORD == 0
    ensures Tiling(start, end, limit, limit, tiles)
  {
    hide TileBounds, TilesDisjoint;
    MoveBounds(start, end, limit, tiles);
    WordsAdd(end, limit);
  }

  lemma WordsAdd(x: int, y: int)
    requires x % WORD == 0 && (y - x) % WORD == 0
    ensures y % WORD == 0
  {
    assert y == WORD * (x / WORD + (y - x) / WORD);
  }

  lemma MoveBounds(start: int, end: int, limit: int, tiles: map<int, int>)
    requires TileBounds(start, end, end, end, tiles)
    ensures TileBounds(start, end, limit, limit, tiles) && TileBounds(start, end, end, end, tiles)
  {
  }

  lemma JoinBounds(start: int, end: int, limit: int, tiles: map<int, int>)
    requires TileBounds(start, end, end, limit, tiles) && start <= end <= limit
    ensures TileBounds(start, limit, limit, limit, tiles)
  {
  }

  /** The region is closed again once the blocks reach down to its start. */
  lemma CloseSpace(start: int, end: int, limit: int, tiles: map<int, int>)
    requires Tiling(start, end, end, limit, tiles)
    ensures Tiling(start, limit, limit, limit, tiles)
  {
    hide TileBounds, TilesDisjoint;
    JoinBounds(start, end, limit, tiles);
  }

  lemma MultipleOfWord(n: int, k: int)
    ensures (n * (k * BLOCK_SIZE_STEP)) % WORD == 0
  {
    assert n * (k * BLOCK_SIZE_STEP) == WORD * (2 * (n * k));
  }

  lemma AtLeastOne(n: nat, size: nat)
    ensures n == 0 || n * size >= size
  {
  }

  lemma OneLess(n: int, size: int)
    ensures (n - 1) * size == n * size - size
  {
  }

  /** Payloads start above address zero. */
  lemma LiveAddress(start: int, end: int, tiles: map<int, int>, mem: map<int, int>, blocks: map<int, seq<int>>, p: int)
    requires Tiling(start, end, end, end, tiles) && Live(mem, tiles, blocks) && p in blocks
    ensures p > NULL
  {
  }

  /** What serving a block from list `k` does to the lists and the free space: an empty list first gets the
      blocks of a new chunk, in the order of their addresses; the block served is the first one. */
  ghost predicate Served(free: seq<seq<int>>, freeSpace: int, free': seq<seq<int>>, freeSpace': int, k: nat, p: int)
    requires |free| == NUM_SIZES
  {
    && 0 < k < NUM_SIZES
    && var n := ChunkBlocks(8 * k);
    && (free[k] == [] ==>
         && freeSpace' == freeSpace + n * (8 * k) && p == freeSpace + 4
         && free' == free[k := Chunk(freeSpace + 8 * k, 8 * k, n - 1)])
    && (free[k] != [] ==> freeSpace' == freeSpace && p == free[k][0] + 4 && free' == free[k := free[k][1..]])
  }

  lemma ServedFromList(free: seq<seq<int>>, freeSpace: int, k: nat)
    requires |free| == NUM_SIZES && 0 < k < NUM_SIZES && free[k] != []
    ensures Served(free, freeSpace, free[k := free[k][1..]], freeSpace, k, free[k][0] + WORD)
  {
  }

  lemma ServedFromChunk(free: seq<seq<int>>, freeSpace: int, k: nat, size: int, n: nat)
    requires |free| == NUM_SIZES && 0 < k < NUM_SIZES && size == 8 * k && free[k] == [] && n == ChunkBlocks(size)
    ensures var chunk := Chunk(freeSpace, size, n);
      n > 0 && Served(free, freeSpace, free[k := chunk[1..]], freeSpace + n * size, k, chunk[0] + WORD)
  {
    hide Chunk;
    ChunkFront(freeSpace, size, n - 1);
  }

  class Heap {
    var mem: map<int, int>
    const smallBlockHeaders: array<int>
    var freeSpace: int
    var initialized: bool

    ghost const start: int
    ghost var tiles: map<int, int>         // block address -> block size
    ghost var free: seq<seq<int>>          // the blocks on each free list, in list order
    ghost var blocks: map<int, seq<int>>   // payload address -> payload words, for live blocks

    ghost predicate Valid()
      reads this, smallBlockHeaders
    {
      && smallBlockHeaders.Length == NUM_SIZES
      && Tiling(start, freeSpace, freeSpace, freeSpace, tiles)
      && |free| == NUM_SIZES
      && (!initialized ==> tiles == map[] && free == seq(NUM_SIZES, i => []))
      && (initialized ==> Lists(mem, smallBlockHeaders[..], free, tiles))
      && Partition(free, tiles, blocks, {})
      && Live(mem, tiles, blocks)
    }

    lemma AddressOf(p: int)
      requires Valid() && p in blocks
      ensures p > NULL
    {
      LiveAddress(start, freeSpace, tiles, mem, blocks, p);
    }

    /** init_heap */
    constructor (heapStart: int)
      requires 0 < heapStart && heapStart % WORD == 0
      ensures Valid() && fresh(smallBlockHeaders)
      ensures blocks == map[] && start == freeSpace == heapStart
    {
      mem := map[];
      smallBlockHeaders := new int[NUM_SIZES];
      initialized := false;
      freeSpace := heapStart;
      start := heapStart;
      tiles, blocks := map[], map[];
      free := seq(NUM_SIZES, i => []);
    }

    /** `header` of an empty list gets a fresh chunk, split into blocks linked in address order. */
    method SplitChunk(k: int, size: int, allocation: int, ghost count: nat)
      requires Valid() && initialized
      requires 0 < k < NUM_SIZES && size == k * BLOCK_SIZE_STEP && free[k] == []
      requires count > 0 && allocation == count * size
      modifies this, smallBlockHeaders
      ensures Valid() && initialized
      ensures blocks == old(blocks) && free == old(free)[k := Chunk(old(freeSpace), size, count)]
      ensures freeSpace == old(freeSpace) + allocation
    {
      hide Tiling, Lists, Partition, Live, Chunk;
      var chunk := freeSpace;
      var endChunk := chunk + allocation;
      freeSpace := endChunk;
      endChunk := endChunk - size;
      ghost var left := count;  // blocks still to be split off
      MultipleOfWord(left, k);
      ChunkFront(freeSpace, size, 0);
      GrowSpace(start, chunk, freeSpace, tiles);
      while endChunk >= chunk
        invariant 0 <= left && endChunk == chunk + left * size - size
        invariant |free| == NUM_SIZES && initialized && freeSpace == chunk + allocation
        invariant blocks == old(blocks)
        invariant Tiling(start, chunk, endChunk + size, freeSpace, tiles)
        invariant Lists(mem, smallBlockHeaders[..], free, tiles)
        invariant Partition(free, tiles, blocks, {})
        invariant Live(mem, tiles, blocks)
        invariant left <= count && free == old(free)[k := Chunk(endChunk + size, size, count - left)]
        decreases left
      {
        AtLeastOne(left, size);
        SplitStep(start, chunk, endChunk + size, freeSpace, tiles, mem, smallBlockHeaders[..], free, blocks, k, size);
        tiles := tiles[endChunk := size];
        ghost var headers := smallBlockHeaders[..];
        mem := mem[endChunk := smallBlockHeaders[k]];
        smallBlockHeaders[k] := endChunk;
        assert smallBlockHeaders[..] == headers[k := endChunk];
        free := free[k := [endChunk] + free[k]];
        ChunkFront(endChunk, size, count - left);
        OneLess(left, size);
        endChunk := endChunk - size;
        left := left - 1;
      }
      AtLeastOne(left, size);
      CloseSpace(start, chunk, freeSpace, tiles);
    }

    /** The first call empties all lists. */
    method InitLists()
      requires Valid()
      modifies this`initialized, smallBlockHeaders
      ensures Valid() && initialized && free == old(free)
    {
      hide Tiling, Lists, Partition, Live;
      if !initialized {
        initialized := true;
        NoLists(mem, free);
        for j := 0 to NUM_SIZES
          modifies smallBlockHeaders
          invariant forall i :: 0 <= i < j ==> smallBlockHeaders[i] == NULL
        {
          smallBlockHeaders[j] := NULL;
        }
        assert Lists(mem, smallBlockHeaders[..], free, tiles);
      }
    }

    /** allocate: NULL for a request it cannot serve, otherwise a block that was not live: the first one on
        the list of its size, or of a new chunk when that list is empty. */
    method Allocate(request: int) returns (p: int)
      requires Valid() && request <= MAX_REQUEST
      modifies this, smallBlockHeaders
      ensures Valid()
      ensures p == NULL <==> request < 1 || BlockSize(request) >= SMALL_BLOCK_LIMIT
      ensures p == NULL ==> blocks == old(blocks) && freeSpace == old(freeSpace) && free == old(free)
      ensures p != NULL ==>
        && p !in old(blocks) && p in blocks && blocks == old(blocks)[p := blocks[p]]
        && WORD + WORD * |blocks[p]| == BlockSize(request) >= WORD + request
        && |old(free)| == NUM_SIZES && Served(old(free), old(freeSpace), free, freeSpace, BlockSize(request) / 8, p)
    {
      hide BlockSize, Served, Wrap, Tiling, Lists, Partition, Live;
      InitLists();
      if request < 1 { return NULL; }
      var size := Wrap(request + WORD);
      var offset := size % BLOCK_SIZE_STEP;
      if offset != 0 {
        size := Wrap(size - offset + BLOCK_SIZE_STEP);
      }
      RoundedSizeExact(request);
      BlockSizeRounds(request);
      assert size == BlockSize(request);
      var numSize := size / BLOCK_SIZE_STEP;
      if numSize >= NUM_SIZES { return NULL; }
      p := Serve(numSize, size);
    }

    /** A block of a size that has a list; an empty list is filled first. */
    method Serve(numSize: int, size: int) returns (p: int)
      requires Valid() && initialized
      requires 0 < numSize < NUM_SIZES && size == numSize * BLOCK_SIZE_STEP
      modifies this, smallBlockHeaders
      ensures Valid() && initialized
      ensures p != NULL && p !in old(blocks) && p in blocks && blocks == old(blocks)[p := blocks[p]]
      ensures WORD + WORD * |blocks[p]| == size
      ensures |old(free)| == NUM_SIZES && Served(old(free), old(freeSpace), free, freeSpace, numSize, p)
    {
      hide Tiling, Lists, Partition, Live, Chunk, Served;
      ghost var lists, space, count := free, freeSpace, 10;
      EmptyList(start, freeSpace, tiles, mem, smallBlockHeaders[..], free, numSize);
      if smallBlockHeaders[numSize] == NULL {
        var allocation := size * 10;
        if allocation < MIN_ALLOCATION {
          var numChunks := MIN_ALLOCATION / size;
          allocation := numChunks * size;
          count := numChunks;
        }
        ServedFromChunk(free, freeSpace, numSize, size, count);
        SplitChunk(numSize, size, allocation, count);
      } else {
        ServedFromList(free, freeSpace, numSize);
      }
      p := TakeBlock(numSize, size);
      assert free == lists[numSize := free[numSize]];
    }

    /** The block at the front of a non-empty list becomes live. */
    method TakeBlock(k: int, size: int) returns (p: int)
      requires Valid() && initialized
      requires 0 < k < NUM_SIZES && size == k * BLOCK_SIZE_STEP && free[k] != []
      modifies this, smallBlockHeaders
      ensures Valid() && initialized
      ensures p != NULL && p !in old(blocks) && p in blocks && blocks == old(blocks)[p := blocks[p]]
      ensures WORD + WORD * |blocks[p]| == size
      ensures p == old(free[k][0]) + WORD && free == old(free)[k := old(free[k])[1..]] && freeSpace == old(freeSpace)
    {
      hide Tiling, Lists, Partition, Live;
      var block := smallBlockHeaders[k];
      ghost var headers := smallBlockHeaders[..];
      FrontOf(mem, headers, free, tiles, k);
      ghost var payload := PayloadAt(mem[block := size], block, (size - WORD) / WORD);
      PopLists(mem, headers, free, tiles, k, size);
      PopPartition(mem, headers, free, tiles, blocks, k, payload);
      LiveAdd(start, freeSpace, tiles, mem, blocks, block, (size - WORD) / WORD);
      BlockAddress(start, freeSpace, tiles, block);
      smallBlockHeaders[k] := Load(mem, block);
      assert smallBlockHeaders[..] == headers[k := Load(mem, block)];
      mem := mem[block := size];
      p := block + WORD;
      free := free[k := free[k][1..]];
      blocks := blocks[p := payload];
    }

    /** release: the block of a live payload goes to the front of the list of its size. */
    method Release(memory: int)
      requires Valid() && memory in blocks
      modifies this, smallBlockHeaders
      ensures Valid()
      ensures blocks == old(blocks) - {memory} && freeSpace == old(freeSpace)
      ensures var k := (4 + 4 * |old(blocks)[memory]|) / 8;
        k < |old(free)| == NUM_SIZES && free == old(free)[k := [memory - 4] + old(free)[k]]
    {
      hide Tiling, Lists, Partition, Live;
      LiveTile(mem, tiles, blocks, memory);
      SizeWord(start, freeSpace, tiles, mem, blocks, memory);
      var chunk := memory - WORD;
      ghost var headers := smallBlockHeaders[..];
      ReleaseKeeps(start, freeSpace, tiles, mem, headers, free, blocks, memory);
      var size := Load(mem, chunk);
      var numSize := size / BLOCK_SIZE_STEP;
      mem := mem[chunk := smallBlockHeaders[numSize]];
      smallBlockHeaders[numSize] := chunk;
      assert smallBlockHeaders[..] == headers[numSize := chunk];
      free := free[numSize := [chunk] + free[numSize]];
      blocks := blocks - {memory};
    }

    /** A client write inside a live payload. */
    method Store(p: int, i: nat, v: int)
      requires Valid() && p in blocks && i < |blocks[p]|
      modifies this
      ensures Valid()
      ensures blocks == old(blocks)[p := old(blocks)[p][i := v]] && freeSpace == old(freeSpace)
    {
      hide Tiling, Lists, Partition, Live;
      LiveTile(mem, tiles, blocks, p);
      PartitionKeys(free, tiles, blocks, blocks[p := blocks[p][i := v]]);
      StoreKeepsLists(start, freeSpace, tiles, mem, smallBlockHeaders[..], free, blocks, p, i, v);
      StoreKeepsLive(start, freeSpace, tiles, mem, blocks, p, i, v);
      mem := mem[p + WORD * i := v];
      blocks := blocks[p := blocks[p][i := v]];
    }

    /** A client read inside a live payload. */
    method Fetch(p: int, i: nat) returns (v: int)
      requires Valid() && p in blocks && i < |blocks[p]|
      ensures v == blocks[p][i]
    {
      v := Load(mem, p + WORD * i);
    }
  }
}
