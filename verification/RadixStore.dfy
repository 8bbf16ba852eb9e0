/** The priority store: numbers are added to a radix tree whose nodes are blocks of the heap,
    and taken out smallest first. */
module RadixStore {
  import opened Bits
  import opened Pointers
  import opened Trie
  import opened TrieInHeap
  import Allocator

  const NODE_SIZE: int := 16  // sizeof(struct node): four 4-byte words

  /** What one added number does to the block of the leaf that counts it. */
  lemma CountInBlock(blocks: map<int, seq<int>>, tree: int, p: Path, t: Trie, x: bv32)
    requires Holds(blocks, tree, p, t) && t.Leaf?
    ensures var i := if HasBit(x, LOWEST) then ONE else ZERO;
      Holds(blocks[t.addr := blocks[t.addr][i := blocks[t.addr][i] + 1]], tree, p, Counted(t, x))
  {
    hide Bit, High, Ones, Sign, Value, Half;
    var i := if HasBit(x, LOWEST) then ONE else ZERO;
    var blocks' := blocks[t.addr := blocks[t.addr][i := blocks[t.addr][i] + 1]];
    Replaced(blocks, tree, blocks', tree, p, t, t.addr, Counted(t, x));
  }

  /** A new node's block, once its four words are written. */
  ghost predicate Filled(blocks: map<int, seq<int>>, a: int, bitPos: bv32, number: bv32, w2: int, w3: int) {
    Node(blocks, a, bitPos, number) && blocks[a][ZERO] == w2 && blocks[a][ONE] == w3
  }

  /** A leaf in a new block, linked into a free slot. */
  lemma LeafInBlock(blocks: map<int, seq<int>>, tree: int, blocks': map<int, seq<int>>, tree': int, p: Path, a: int, x: bv32)
    requires Holds(blocks, tree, p, Empty) && a !in blocks && a != NULL
    requires tree' == if p.Top? then a else tree
    requires blocks'.Keys == blocks.Keys + {a}
    requires forall b :: b in blocks ==> blocks'[b] == SlotUpdate(blocks, SlotOf(p), a)[b]
    requires Filled(blocks', a, LOWEST, x, if HasBit(x, LOWEST) then 0 else 1, if HasBit(x, LOWEST) then 1 else 0)
    ensures Holds(blocks', tree', p, NewLeaf(a, x))
  {
    hide Bit, High, Ones, Sign, Value, Half;
    Replaced(blocks, tree, blocks', tree', p, Empty, a, NewLeaf(a, x));
  }

  lemma InjectedRep(blocks: map<int, seq<int>>, blocks': map<int, seq<int>>, t: Trie, ptr: int, a: int, b: bv32, x: bv32)
    requires Rep(blocks, ptr, t) && Distinct(t) && a !in Addrs(t)
    requires forall c :: c in Addrs(t) ==> c in blocks && c in blocks' && blocks'[c] == blocks[c]
    requires Filled(blocks', a, b, x, if HasBit(x, b) then ptr else NULL, if HasBit(x, b) then NULL else ptr)
    ensures var t' := Injected(a, b, x, t); Addrs(t') == {a} + Addrs(t) && Distinct(t') && Rep(blocks', a, t')
  {
    hide Bit, High, Ones, Sign, Value, Half;
    RepFrame(blocks, blocks', ptr, t);
  }

  /** A branch in a new block, linked into the slot of the subtree it is injected above. */
  lemma BranchInBlock(blocks: map<int, seq<int>>, tree: int, blocks': map<int, seq<int>>, tree': int, p: Path, t: Trie,
                      ptr: int, a: int, b: bv32, x: bv32)
    requires Holds(blocks, tree, p, t) && ptr == SlotValue(blocks, tree, SlotOf(p)) && a !in blocks && a != NULL
    requires tree' == if p.Top? then a else tree
    requires blocks'.Keys == blocks.Keys + {a}
    requires forall c :: c in blocks ==> blocks'[c] == SlotUpdate(blocks, SlotOf(p), a)[c]
    requires Filled(blocks', a, b, x, if HasBit(x, b) then ptr else NULL, if HasBit(x, b) then NULL else ptr)
    ensures Holds(blocks', tree', p, Injected(a, b, x, t))
  {
    hide Bit, High, Ones, Sign, Value, Half, Rep, HasBit, Filled, Distinct, Node;
    var t' := Injected(a, b, x, t);
    forall c | c in Addrs(t)
      ensures blocks'[c] == blocks[c]
    {
      assert SlotOf(p).Field? ==> SlotOf(p).addr in PathAddrs(p);
    }
    InjectedRep(blocks, blocks', t, ptr, a, b, x);
    Replaced(blocks, tree, blocks', tree', p, t, a, t');
  }

  /** The path one node down in the heap. */
  lemma DescendFor(blocks: map<int, seq<int>>, tree: int, p: Path, t: Trie, x: bv32)
    requires Holds(blocks, tree, p, t) && t.Branch?
    ensures Holds(blocks, tree, Down(p, t, x), ChildOf(t, x))
    ensures SlotOf(Down(p, t, x)) == Field(t.addr, if HasBit(x, t.bitPos) then ONE else ZERO)
  {
    hide Bit, High, Ones, Sign, Value, Half;
    Descend(blocks, tree, p, t);
  }

  // ----- the state of an insertion, over plain values -----

  /** On the way down: the heap holds the old numbers, and `number` belongs below `path`. */
  ghost predicate Descending(blocks: map<int, seq<int>>, tree: int, was: Trie, number: bv32,
                             path: Path, cur: Trie, bitPos: bv32) {
    && Holds(blocks, tree, path, cur)
    && WellFormed(was) && WellFormed(Plug(path, cur))
    && multiset(Items(Plug(path, cur))) == multiset(Items(was))
    && Fits(path, number) && NonNegative(number) && At(path, bitPos)
  }

  /** Afterwards: the heap holds one occurrence of `number` more. */
  ghost predicate Inserted(blocks: map<int, seq<int>>, tree: int, was: Trie, number: bv32, now: Trie) {
    && Holds(blocks, tree, Top, now)
    && WellFormed(was) && WellFormed(now) && Added(was, now, number)
  }

  lemma InsertedMeans(blocks: map<int, seq<int>>, tree: int, was: Trie, number: bv32, now: Trie)
    requires Inserted(blocks, tree, was, number, now)
    ensures Holds(blocks, tree, Top, now) && WellFormed(was) && WellFormed(now) && Added(was, now, number)
    ensures blocks.Keys == Addrs(now)
  {
    hide WellFormed, Items;
  }

  lemma StartDescent(blocks: map<int, seq<int>>, tree: int, t: Trie, number: bv32)
    requires Holds(blocks, tree, Top, t) && WellFormed(t) && NonNegative(number)
    ensures Descending(blocks, tree, t, number, Top, t, MAX_BITS) && SlotOf(Top) == Root
  {
  }

  lemma FinishLeaf(blocks: map<int, seq<int>>, tree: int, blocks': map<int, seq<int>>, tree': int, was: Trie, number: bv32,
                   path: Path, bitPos: bv32, a: int)
    requires Descending(blocks, tree, was, number, path, Empty, bitPos)
    requires Holds(blocks', tree', path, NewLeaf(a, number))
    ensures Inserted(blocks', tree', was, number, Plug(path, NewLeaf(a, number)))
  {
    hide Bit, High, Ones, Sign, Value, Half, Fits, Plug, Items, At, Holds, NewLeaf;
    AddNewLeaf(path, bitPos, a, number);
    ToRoot(blocks', tree', path, NewLeaf(a, number));
  }

  lemma FinishCount(blocks: map<int, seq<int>>, tree: int, blocks': map<int, seq<int>>, tree': int, was: Trie, number: bv32,
                    path: Path, cur: Trie, bitPos: bv32)
    requires Descending(blocks, tree, was, number, path, cur, bitPos)
    requires cur.Leaf? && AgreeAbove(number, cur.number, LOWEST) && Holds(blocks', tree', path, Counted(cur, number))
    ensures Inserted(blocks', tree', was, number, Plug(path, Counted(cur, number)))
  {
    hide Bit, High, Ones, Sign, Value, Half, Fits, Plug, Items, At, Holds, Counted;
    AddToLeaf(path, cur, number);
    ToRoot(blocks', tree', path, Counted(cur, number));
  }

  /** Every bit above the open ones already agrees. */
  lemma SubtreeAgrees(blocks: map<int, seq<int>>, tree: int, was: Trie, number: bv32, path: Path, cur: Trie, bitPos: bv32)
    requires Descending(blocks, tree, was, number, path, cur, bitPos) && !cur.Empty?
    ensures WellFormed(cur) && OneHot(bitPos) && OneHot(cur.Pos()) && Value(cur.Pos()) <= Value(bitPos)
    ensures AgreeAbove(number, cur.number, bitPos)
  {
    hide Bit, High, Ones, Sign, Value, Half, Fits, Plug, Items, At, Holds;
    PlugWellFormed(path, cur);
    PathAgrees(path, cur, bitPos, number);
    AtOneHot(path, bitPos);
  }

  lemma StepDown(blocks: map<int, seq<int>>, tree: int, was: Trie, number: bv32, path: Path, cur: Trie, bitPos: bv32)
    requires Descending(blocks, tree, was, number, path, cur, bitPos)
    requires cur.Branch? && AgreeAbove(number, cur.number, cur.bitPos)
    ensures Descending(blocks, tree, was, number, Down(path, cur, number), ChildOf(cur, number), Half(cur.bitPos))
  {
    hide Bit, High, Ones, Sign, Value, Half, Fits, Plug, Items, At, Holds, Down, ChildOf;
    PlugWellFormed(path, cur);
    GoDown(path, cur, number);
    GoDownAt(path, cur, number);
    DescendFor(blocks, tree, path, cur, number);
  }

  lemma LeafAtOne(blocks: map<int, seq<int>>, tree: int, was: Trie, number: bv32, path: Path, cur: Trie, bitPos: bv32)
    requires Descending(blocks, tree, was, number, path, cur, bitPos) && !cur.Empty? && cur.Pos() == LOWEST
    ensures cur.Leaf?
  {
    hide Bit, High, Ones, Sign, Value, Half, Fits, Plug, Items, At, Holds;
    ValueOfOne();
    PlugWellFormed(path, cur);
  }

  lemma EmptySize(t: Trie)
    ensures Size(Empty) == 0
    ensures !t.Empty? ==> 1 <= Size(t)
  {
  }

  lemma SmallerBelow(path: Path, t: Trie, number: bv32)
    requires t.Branch?
    ensures Size(ChildOf(t, number)) < Size(t)
    ensures SlotOf(Down(path, t, number)) == Field(t.addr, if HasBit(number, t.bitPos) then ONE else ZERO)
  {
    hide Bit, High, Ones, Sign, Value, Half;
  }

  lemma InjectedSlot(path: Path, a: int, b: bv32, number: bv32, t: Trie)
    ensures var t' := Injected(a, b, number, t);
      t'.Branch? && SlotOf(Down(path, t', number)) == Field(a, if HasBit(number, b) then ONE else ZERO)
  {
    hide Bit;
  }

  lemma StepInject(blocks: map<int, seq<int>>, tree: int, blocks': map<int, seq<int>>, tree': int, was: Trie, number: bv32,
                   path: Path, cur: Trie, bitPos: bv32, a: int, b: bv32)
    requires Descending(blocks, tree, was, number, path, cur, bitPos) && !cur.Empty? && WellFormed(cur)
    requires BranchBit(b) && Value(cur.Pos()) < Value(b) && Value(b) <= Value(bitPos)
    requires AgreeAbove(number, cur.number, b) && Bit(number, b) != Bit(cur.number, b)
    requires Holds(blocks', tree', path, Injected(a, b, number, cur))
    ensures var t' := Injected(a, b, number, cur);
      Descending(blocks', tree', was, number, Down(path, t', number), Empty, Half(b))
  {
    hide Bit, High, Ones, Sign, Value, Half, Fits, Plug, Items, At, Holds;
    var t' := Injected(a, b, number, cur);
    Inject(path, bitPos, a, b, cur, number);
    assert Descending(blocks', tree', was, number, path, t', bitPos);
    assert t'.bitPos == b && t'.number == number && ChildOf(t', number) == Empty;
    StepDown(blocks', tree', was, number, path, t', bitPos);
  }

  // ----- taking numbers out of a subtree, over plain values -----

  /** The subtree `t` in slot `s` has become `t'`; the blocks of the nodes it lost are released
      and nothing else has changed. */
  ghost predicate Taken(blocks: map<int, seq<int>>, tree: int, blocks': map<int, seq<int>>, tree': int, s: Slot, t: Trie, t': Trie)
  {
    && SlotValid(blocks, s) && SlotValid(blocks', s)
    && var ptr := SlotValue(blocks', tree', s);
    && Rep(blocks', ptr, t') && Distinct(t') && Addrs(t') <= Addrs(t)
    && blocks'.Keys == blocks.Keys - (Addrs(t) - Addrs(t'))
    && tree' == (if s.Root? then ptr else tree)
    && forall a :: a in blocks && a !in Addrs(t) ==> a in blocks' && blocks'[a] == SlotUpdate(blocks, s, ptr)[a]
  }

  /** A subtree ready to be taken from. */
  ghost predicate Ready(blocks: map<int, seq<int>>, tree: int, s: Slot, t: Trie) {
    && SlotValid(blocks, s) && Rep(blocks, SlotValue(blocks, tree, s), t) && Distinct(t) && WellFormed(t)
    && (s.Field? ==> s.addr !in Addrs(t))
  }

  lemma SameSlot(blocks: map<int, seq<int>>, tree: int, s: Slot)
    requires SlotValid(blocks, s)
    ensures SlotUpdate(blocks, s, SlotValue(blocks, tree, s)) == blocks
  {
    if s.Field? {
      assert blocks[s.addr][s.index := blocks[s.addr][s.index]] == blocks[s.addr];
    }
  }

  lemma TakenNothing(blocks: map<int, seq<int>>, tree: int, s: Slot)
    requires Ready(blocks, tree, s, Empty)
    ensures Taken(blocks, tree, blocks, tree, s, Empty, Empty)
  {
    SameSlot(blocks, tree, s);
  }

  /** The last node of a subtree is released and unlinked. */
  lemma TakenAll(blocks: map<int, seq<int>>, tree: int, blocks': map<int, seq<int>>, s: Slot, t: Trie, a: int)
    requires SlotValid(blocks, s) && a in Addrs(t) && (s.Field? ==> s.addr !in Addrs(t))
    requires blocks'.Keys == blocks.Keys - (Addrs(t) - {a})
    requires forall b :: b in blocks && b !in Addrs(t) ==> b in blocks' && blocks'[b] == blocks[b]
    ensures var last := SlotUpdate(blocks' - {a}, s, NULL);
      SlotValid(blocks' - {a}, s) && Taken(blocks, tree, last, if s.Root? then NULL else tree, s, t, Empty)
  {
  }

  /** A leaf that still counts something. */
  lemma TakenFromLeaf(blocks: map<int, seq<int>>, tree: int, blocks': map<int, seq<int>>, s: Slot, t: Trie, c0: int, c1: int)
    requires Ready(blocks, tree, s, t) && t.Leaf?
    requires blocks' == blocks[t.addr := blocks[t.addr][ZERO := c0][ONE := c1]]
    ensures Taken(blocks, tree, blocks', tree, s, t, t.(countZero := c0, countOne := c1))
  {
    hide Bit, High, Ones, Sign, Value, Half;
    SameSlot(blocks, tree, s);
  }

  lemma TakenTree(blocks: map<int, seq<int>>, tree: int, blocks': map<int, seq<int>>, tree': int, s: Slot, t: Trie, t': Trie)
    requires Taken(blocks, tree, blocks', tree', s, t, t') && s.Field?
    ensures tree' == tree
  {
  }

  lemma ReadySlot(blocks: map<int, seq<int>>, tree: int, s: Slot, t: Trie)
    requires Ready(blocks, tree, s, t)
    ensures SlotValid(blocks, s) && Rep(blocks, SlotValue(blocks, tree, s), t) && WellFormed(t)
  {
  }

  lemma ReadyNode(blocks: map<int, seq<int>>, tree: int, s: Slot, t: Trie)
    requires Ready(blocks, tree, s, t) && !t.Empty?
    ensures SlotValue(blocks, tree, s) == t.addr && Node(blocks, t.addr, t.Pos(), t.number)
    ensures t.Pos() == LOWEST <==> t.Leaf?
  {
    hide Bit, High, Ones, Sign, Value, Half, Child;
    ValueOfOne();
  }

  lemma LeafReady(blocks: map<int, seq<int>>, tree: int, s: Slot, t: Trie)
    requires Ready(blocks, tree, s, t) && t.Leaf?
    ensures Node(blocks, t.addr, LOWEST, t.number) && blocks[t.addr][ZERO] == t.countZero && blocks[t.addr][ONE] == t.countOne
    ensures WellFormed(t) && 0 <= t.countZero && 0 <= t.countOne
    ensures SlotValid(blocks, s) && (s.Field? ==> s.addr !in Addrs(t)) && Addrs(t) == {t.addr}
  {
    hide Sign;
  }

  lemma EmptyTakes(was: seq<bv32>, start: nat, k: nat)
    requires start <= |was|
    ensures WellFormed(Empty) && Smallest(Empty, k) == [] && Drop(Empty, k) == Empty && Written(was, start, []) == was
  {
  }

  lemma ReadyZero(blocks: map<int, seq<int>>, tree: int, s: Slot, t: Trie)
    requires Ready(blocks, tree, s, t) && t.Branch?
    ensures Ready(blocks, tree, Field(t.addr, ZERO), t.zero)
    ensures WellFormed(t.zero) && WellFormed(t.one)
  {
    hide Bit, High, Ones, Sign, Value, Half, Child;
  }

  /** Taking from the zero side leaves the one side ready. */
  lemma ReadyOne(blocks: map<int, seq<int>>, tree: int, b1: map<int, seq<int>>, s: Slot, t: Trie, z': Trie)
    requires Ready(blocks, tree, s, t) && t.Branch?
    requires Taken(blocks, tree, b1, tree, Field(t.addr, ZERO), t.zero, z')
    ensures Ready(b1, tree, Field(t.addr, ONE), t.one)
  {
    hide Bit, High, Ones, Sign, Value, Half, Child;
    RepFrame(blocks, b1, blocks[t.addr][ONE], t.one) by { RepLive(blocks, blocks[t.addr][ONE], t.one); }
  }

  // What both sides of a branch have lost together.

  lemma TakenBothNode(blocks: map<int, seq<int>>, tree: int, b1: map<int, seq<int>>, b2: map<int, seq<int>>, s: Slot, t: Trie,
                      z': Trie, o': Trie)
    requires Ready(blocks, tree, s, t) && t.Branch?
    requires Taken(blocks, tree, b1, tree, Field(t.addr, ZERO), t.zero, z')
    requires Taken(b1, tree, b2, tree, Field(t.addr, ONE), t.one, o')
    ensures Node(b2, t.addr, t.bitPos, t.number)
    ensures Rep(b2, b2[t.addr][ZERO], z') && Rep(b2, b2[t.addr][ONE], o')
  {
    hide Bit, High, Ones, Sign, Value, Half, Child, WellFormed;
    RepLive(b1, b1[t.addr][ZERO], z');
    RepFrame(b1, b2, b1[t.addr][ZERO], z');
  }

  lemma KeysLeft(keys: set<int>, a: int, z: set<int>, o: set<int>, z': set<int>, o': set<int>)
    requires z' <= z && o' <= o && z !! o && a !in z && a !in o
    ensures keys - (z - z') - (o - o') == keys - ({a} + z + o - ({a} + z' + o'))
  {
  }

  lemma TakenBothKeys(blocks: map<int, seq<int>>, tree: int, b1: map<int, seq<int>>, b2: map<int, seq<int>>, s: Slot, t: Trie,
                      z': Trie, o': Trie)
    requires Ready(blocks, tree, s, t) && t.Branch?
    requires Taken(blocks, tree, b1, tree, Field(t.addr, ZERO), t.zero, z')
    requires Taken(b1, tree, b2, tree, Field(t.addr, ONE), t.one, o')
    ensures b2.Keys == blocks.Keys - (Addrs(t) - ({t.addr} + Addrs(z') + Addrs(o')))
  {
    hide Bit, High, Ones, Sign, Value, Half, Child, WellFormed, Rep, SlotValid, SlotUpdate, SlotValue;
    KeysLeft(blocks.Keys, t.addr, Addrs(t.zero), Addrs(t.one), Addrs(z'), Addrs(o'));
  }

  lemma TakenBothFrame(blocks: map<int, seq<int>>, tree: int, b1: map<int, seq<int>>, b2: map<int, seq<int>>, s: Slot, t: Trie,
                       z': Trie, o': Trie, a: int)
    requires Ready(blocks, tree, s, t) && t.Branch?
    requires Taken(blocks, tree, b1, tree, Field(t.addr, ZERO), t.zero, z')
    requires Taken(b1, tree, b2, tree, Field(t.addr, ONE), t.one, o')
    requires a in blocks && a !in Addrs(t)
    ensures a in b2 && b2[a] == blocks[a]
  {
    hide Bit, High, Ones, Sign, Value, Half, Child, WellFormed, Rep, Distinct;
  }

  lemma TakenFromBranch(blocks: map<int, seq<int>>, tree: int, b1: map<int, seq<int>>, b2: map<int, seq<int>>, s: Slot, t: Trie,
                        z': Trie, o': Trie)
    requires Ready(blocks, tree, s, t) && t.Branch?
    requires Taken(blocks, tree, b1, tree, Field(t.addr, ZERO), t.zero, z')
    requires Taken(b1, tree, b2, tree, Field(t.addr, ONE), t.one, o')
    ensures Taken(blocks, tree, b2, tree, s, t, Branch(t.addr, t.bitPos, t.number, z', o'))
  {
    hide Bit, High, Ones, Sign, Value, Half, Child, WellFormed;
    TakenBothNode(blocks, tree, b1, b2, s, t, z', o');
    TakenBothKeys(blocks, tree, b1, b2, s, t, z', o');
    forall a | a in blocks && a !in Addrs(t)
      ensures a in b2 && b2[a] == blocks[a]
    {
      TakenBothFrame(blocks, tree, b1, b2, s, t, z', o', a);
    }
    SameSlot(blocks, tree, s);
  }

  /** A branch that has lost both sides is released and unlinked. */
  lemma TakenAllOfBranch(blocks: map<int, seq<int>>, tree: int, b1: map<int, seq<int>>, b2: map<int, seq<int>>, s: Slot, t: Trie)
    requires Ready(blocks, tree, s, t) && t.Branch?
    requires Taken(blocks, tree, b1, tree, Field(t.addr, ZERO), t.zero, Empty)
    requires Taken(b1, tree, b2, tree, Field(t.addr, ONE), t.one, Empty)
    ensures SlotValid(b2 - {t.addr}, s)
    ensures Taken(blocks, tree, SlotUpdate(b2 - {t.addr}, s, NULL), if s.Root? then NULL else tree, s, t, Empty)
  {
    hide Bit, High, Ones, Sign, Value, Half, Child, WellFormed;
    TakenBothKeys(blocks, tree, b1, b2, s, t, Empty, Empty);
    forall a | a in blocks && a !in Addrs(t)
      ensures a in b2 && b2[a] == blocks[a]
    {
      TakenBothFrame(blocks, tree, b1, b2, s, t, Empty, Empty, a);
    }
    hide Taken, Rep;
    assert Addrs(Empty) == {};
    TakenAll(blocks, tree, b2, s, t, t.addr);
  }

  /** A leaf that counts nothing any more is released and unlinked. */
  lemma TakenAllOfLeaf(blocks: map<int, seq<int>>, tree: int, blocks': map<int, seq<int>>, s: Slot, t: Trie,
                       words: seq<int>)
    requires Ready(blocks, tree, s, t) && t.Leaf? && blocks' == blocks[t.addr := words]
    ensures SlotValid(blocks' - {t.addr}, s)
    ensures Taken(blocks, tree, SlotUpdate(blocks' - {t.addr}, s, NULL), if s.Root? then NULL else tree, s, t, Empty)
  {
    hide Sign, Taken;
    TakenAll(blocks, tree, blocks', s, t, t.addr);
  }

  ghost function LeafWords(words: seq<int>, z: int, o: int): seq<int>
    requires |words| >= NODE_WORDS
  {
    words[ZERO := words[ZERO] - z][ONE := words[ONE] - o]
  }

  /** A leaf after `k` numbers, or all it counts, have been taken. */
  lemma LeafTaken(blocks: map<int, seq<int>>, tree: int, s: Slot, t: Trie, k: nat, z: int, o: int)
    requires Ready(blocks, tree, s, t) && t.Leaf?
    requires z == Min(k, t.countZero) && o == Min(k - z, t.countOne)
    ensures Smallest(t, k) == Repeat(EvenOf(t.number), z) + Repeat(OddOf(t.number), o) && |Smallest(t, k)| == z + o
    ensures var words := LeafWords(blocks[t.addr], z, o); var blocks' := blocks[t.addr := words];
      && t.addr in blocks && |words| >= NODE_WORDS
      && SlotValid(blocks' - {t.addr}, s)
      && if words[ZERO] == 0 && words[ONE] == 0
         then Taken(blocks, tree, SlotUpdate(blocks' - {t.addr}, s, NULL), if s.Root? then NULL else tree, s, t, Drop(t, k))
         else Taken(blocks, tree, blocks', tree, s, t, Drop(t, k))
  {
    LeafReady(blocks, tree, s, t);
    hide Sign, EvenOf, OddOf, Ready, Taken, Smallest, Drop, Items, WellFormed;
    SmallestOfLeaf(t, k);
    var words := LeafWords(blocks[t.addr], z, o);
    TakenAllOfLeaf(blocks, tree, blocks[t.addr := words], s, t, words);
    TakenFromLeaf(blocks, tree, blocks[t.addr := words], s, t, words[ZERO], words[ONE]);
  }

  lemma RootReady(blocks: map<int, seq<int>>, tree: int, t: Trie)
    requires Holds(blocks, tree, Top, t) && WellFormed(t)
    ensures Ready(blocks, tree, Root, t)
  {
    hide WellFormed;
  }

  lemma RootTaken(blocks: map<int, seq<int>>, tree: int, blocks': map<int, seq<int>>, tree': int, t: Trie, k: nat)
    requires Holds(blocks, tree, Top, t) && WellFormed(t) && Taken(blocks, tree, blocks', tree', Root, t, Drop(t, k))
    ensures Holds(blocks', tree', Top, Drop(t, k)) && WellFormed(Drop(t, k)) && blocks'.Keys == Addrs(Drop(t, k))
  {
    hide WellFormed, Drop;
    DropWellFormed(t, k);
  }

  /** The parts of a node, ready to be released one after the other. */
  lemma NodeParts(blocks: map<int, seq<int>>, ptr: int, t: Trie)
    requires Rep(blocks, ptr, t) && Distinct(t) && WellFormed(t)
    ensures Addrs(t) <= blocks.Keys
    ensures !t.Empty? ==> ptr == t.addr && Node(blocks, ptr, t.Pos(), t.number) && (Value(t.Pos()) > 1 <==> t.Branch?)
    ensures t.Branch? ==>
      && Rep(blocks, blocks[ptr][ZERO], t.zero) && Distinct(t.zero) && WellFormed(t.zero)
      && Rep(blocks, blocks[ptr][ONE], t.one) && Distinct(t.one) && WellFormed(t.one)
      && Addrs(t.zero) !! Addrs(t.one) && ptr !in Addrs(t.zero) && ptr !in Addrs(t.one)
      && Addrs(t.zero) <= blocks.Keys && Addrs(t.one) <= blocks.Keys
  {
    hide Bit, High, Ones, Sign, Value, Half, Child;
    ValueOfOne();
    RepLive(blocks, ptr, t);
  }

  class Store {
    var tree: int
    const heap: Allocator.Heap
    ghost var trie: Trie

    ghost predicate Valid()
      reads this, heap, heap.smallBlockHeaders
    {
      heap.Valid() && WellFormed(trie) && Holds(heap.blocks, tree, Top, trie)
    }

    constructor (heapStart: int)
      requires 0 < heapStart && heapStart % Allocator.WORD == 0
      ensures Valid() && fresh(heap) && fresh(heap.smallBlockHeaders) && trie == Empty
    {
      heap := new Allocator.Heap(heapStart);
      tree := NULL;
      trie := Empty;
    }

    method LoadSlot(s: Slot) returns (ptr: int)
      requires heap.Valid() && SlotValid(heap.blocks, s)
      ensures ptr == SlotValue(heap.blocks, tree, s)
    {
      match s
      case Root => ptr := tree;
      case Field(a, i) => ptr := heap.Fetch(a, i);
    }

    method StoreSlot(s: Slot, ptr: int)
      requires heap.Valid() && SlotValid(heap.blocks, s)
      modifies this`tree, heap
      ensures heap.Valid() && heap.blocks == SlotUpdate(old(heap.blocks), s, ptr)
      ensures tree == if s.Root? then ptr else old(tree)
    {
      match s
      case Root => tree := ptr;
      case Field(a, i) => heap.Store(a, i, ptr);
    }

    /** A word of a node read as a bit pattern. */
    method LoadBits(a: int, i: nat, ghost b: bv32) returns (r: bv32)
      requires heap.Valid() && a in heap.blocks && i < |heap.blocks[a]| && heap.blocks[a][i] == b as int
      ensures r == b
    {
      var w := heap.Fetch(a, i);
      StoredWord(b);
      r := w as bv32;
    }

    /** The four words of a new node. */
    method Fill(a: int, bitPos: bv32, number: bv32, w2: int, w3: int)
      requires heap.Valid() && a in heap.blocks && |heap.blocks[a]| >= NODE_WORDS
      modifies heap
      ensures heap.Valid() && Filled(heap.blocks, a, bitPos, number, w2, w3)
      ensures heap.blocks.Keys == old(heap.blocks.Keys)
      ensures forall c :: c in heap.blocks && c != a ==> heap.blocks[c] == old(heap.blocks[c])
    {
      hide Bit, High, Ones, Sign, Value, Half, Allocator.Heap.Valid;
      heap.Store(a, BIT_POS, bitPos as int);
      heap.Store(a, NUMBER, number as int);
      heap.Store(a, ZERO, w2);
      heap.Store(a, ONE, w3);
    }

    /** The highest bit of `diff` at or below `start`. */
    method HighestDifference(number: bv32, other: bv32, start: bv32, low: bv32, diff: bv32) returns (bitPos: bv32)
      requires OneHot(start) && OneHot(low) && Value(low) < Value(start) && AgreeAbove(number, other, start)
      requires diff == Diff(start, low, number, other) && diff != NONE
      ensures OneHot(bitPos) && Value(low) < Value(bitPos) <= Value(start) && AgreeAbove(number, other, bitPos)
      ensures Bit(number, bitPos) != Bit(other, bitPos)
    {
      hide Bit, High, Ones, Sign, Value, Half, Diff;
      bitPos := start;
      while !HasBit(diff, bitPos)
        invariant OneHot(bitPos) && Value(low) < Value(bitPos) <= Value(start) && AgreeAbove(number, other, bitPos)
        invariant diff == Diff(bitPos, low, number, other)
        decreases Value(bitPos)
      {
        SearchStep(number, other, bitPos, low);
        bitPos := Half(bitPos);
      }
      SearchEnd(number, other, bitPos, low);
    }

    /** The node that the slot of an insertion points to. */
    lemma CurrentSlot(parent: Slot, was: Trie, number: bv32, path: Path, cur: Trie, bitPos: bv32)
      requires Descending(heap.blocks, tree, was, number, path, cur, bitPos) && parent == SlotOf(path)
      ensures SlotValid(heap.blocks, parent)
      ensures var nptr := SlotValue(heap.blocks, tree, parent);
        && Rep(heap.blocks, nptr, cur)
        && (!cur.Empty? ==> nptr == cur.addr && Node(heap.blocks, nptr, cur.Pos(), cur.number))
    {
    }

    /** A null link means an empty subtree. */
    lemma NullIsEmpty(t: Trie, ptr: int)
      requires heap.Valid() && Rep(heap.blocks, ptr, t)
      ensures t.Empty? <==> ptr == NULL
    {
      RepLive(heap.blocks, ptr, t);
      if !t.Empty? { heap.AddressOf(ptr); }
    }

    /** A block for a new node, linked into slot `parent` and filled. */
    method NewNode(parent: Slot, bitPos: bv32, number: bv32, w2: int, w3: int) returns (nptr: int)
      requires heap.Valid() && SlotValid(heap.blocks, parent)
      modifies this`tree, heap, heap.smallBlockHeaders
      ensures heap.Valid() && nptr != NULL && nptr !in old(heap.blocks)
      ensures tree == if parent.Root? then nptr else old(tree)
      ensures heap.blocks.Keys == old(heap.blocks.Keys) + {nptr}
      ensures forall b :: b in old(heap.blocks) ==> heap.blocks[b] == SlotUpdate(old(heap.blocks), parent, nptr)[b]
      ensures Filled(heap.blocks, nptr, bitPos, number, w2, w3)
    {
      hide Bit, High, Ones, Sign, Value, Half, Filled, Allocator.Heap.Valid;
      nptr := heap.Allocate(NODE_SIZE);
      StoreSlot(parent, nptr);
      Fill(nptr, bitPos, number, w2, w3);
    }

    /** The subtree does not exist: create a leaf. */
    method AddLeaf(parent: Slot, number: bv32, ghost was: Trie, ghost path: Path, ghost cur: Trie, ghost bitPos: bv32)
      requires heap.Valid() && Descending(heap.blocks, tree, was, number, path, cur, bitPos)
      requires parent == SlotOf(path) && SlotValue(heap.blocks, tree, parent) == NULL
      modifies this, heap, heap.smallBlockHeaders
      ensures heap.Valid() && Inserted(heap.blocks, tree, was, number, trie)
    {
      hide Bit, High, Ones, Sign, Value, Half, WellFormed, Fits, Plug, Items, At, NewLeaf, Allocator.Heap.Valid;
      NullIsEmpty(cur, NULL);
      ghost var blocks, tree0 := heap.blocks, tree;
      var odd := HasBit(number, LOWEST);
      var nptr := NewNode(parent, 1, number, if odd then 0 else 1, if odd then 1 else 0);
      LeafInBlock(blocks, tree0, heap.blocks, tree, path, nptr, number);
      FinishLeaf(blocks, tree0, heap.blocks, tree, was, number, path, bitPos, nptr);
      trie := Plug(path, NewLeaf(nptr, number));
    }

    /** The value differs from those in the subtree at `nptr`: inject a branch above it. */
    method InjectBranch(parent: Slot, nptr: int, b: bv32, number: bv32, ghost was: Trie, ghost path: Path, ghost cur: Trie,
                        ghost bitPos: bv32) returns (slot: Slot, ghost path': Path)
      requires heap.Valid() && Descending(heap.blocks, tree, was, number, path, cur, bitPos)
      requires parent == SlotOf(path) && SlotValue(heap.blocks, tree, parent) == nptr && !cur.Empty? && WellFormed(cur)
      requires BranchBit(b) && Value(cur.Pos()) < Value(b) && Value(b) <= Value(bitPos)
      requires AgreeAbove(number, cur.number, b) && Bit(number, b) != Bit(cur.number, b)
      modifies this, heap, heap.smallBlockHeaders
      ensures heap.Valid() && Descending(heap.blocks, tree, was, number, path', Empty, Half(b)) && slot == SlotOf(path')
    {
      hide Bit, High, Ones, Sign, Value, Half, WellFormed, Fits, Plug, Items, At, Holds, Rep, RepPath, Filled, Injected, Down,
        Allocator.Heap.Valid;
      CurrentSlot(parent, was, number, path, cur, bitPos);
      ghost var blocks, tree0 := heap.blocks, tree;
      var high := HasBit(number, b);
      var nptr2 := NewNode(parent, b, number, if high then nptr else NULL, if high then NULL else nptr);
      slot := Field(nptr2, if high then ONE else ZERO);
      BranchInBlock(blocks, tree0, heap.blocks, tree, path, cur, nptr, nptr2, b, number);
      StepInject(blocks, tree0, heap.blocks, tree, was, number, path, cur, bitPos, nptr2, b);
      InjectedSlot(path, nptr2, b, number, cur);
      path' := Down(path, Injected(nptr2, b, number, cur), number);
    }

    /** Add the number at the leaf `nptr`. */
    method CountAtLeaf(nptr: int, number: bv32, ghost was: Trie, ghost path: Path, ghost cur: Trie, ghost bitPos: bv32)
      requires heap.Valid() && Descending(heap.blocks, tree, was, number, path, cur, bitPos)
      requires cur.Leaf? && cur.addr == nptr && AgreeAbove(number, cur.number, LOWEST)
      modifies this, heap, heap.smallBlockHeaders
      ensures heap.Valid() && Inserted(heap.blocks, tree, was, number, trie)
    {
      hide Bit, High, Ones, Sign, Value, Half, WellFormed, Fits, Plug, Items, At, Counted, Allocator.Heap.Valid;
      ghost var blocks := heap.blocks;
      var i := if HasBit(number, LOWEST) then ONE else ZERO;
      var count := heap.Fetch(nptr, i);
      heap.Store(nptr, i, count + 1);
      CountInBlock(blocks, tree, path, cur, number);
      FinishCount(blocks, tree, heap.blocks, tree, was, number, path, cur, bitPos);
      trie := Plug(path, Counted(cur, number));
    }

    /** A difference was found: branch on its highest bit. */
    method InjectAtDifference(parent: Slot, nptr: int, bitPos: bv32, nodeBit: bv32, number: bv32, nodeNumber: bv32, diff: bv32,
                              ghost was: Trie, ghost path: Path, ghost cur: Trie)
      returns (parent': Slot, bitPos': bv32, ghost path': Path)
      requires heap.Valid() && Descending(heap.blocks, tree, was, number, path, cur, bitPos) && parent == SlotOf(path)
      requires !cur.Empty? && WellFormed(cur) && nptr == SlotValue(heap.blocks, tree, parent)
      requires OneHot(bitPos) && nodeBit == cur.Pos() && nodeNumber == cur.number && OneHot(nodeBit)
      requires Value(nodeBit) < Value(bitPos) && AgreeAbove(number, nodeNumber, bitPos)
      requires diff == Diff(bitPos, nodeBit, number, nodeNumber) && diff != NONE
      modifies this, heap, heap.smallBlockHeaders
      ensures heap.Valid() && Descending(heap.blocks, tree, was, number, path', Empty, Half(bitPos')) && parent' == SlotOf(path')
      ensures Value(Half(bitPos')) >= 1
    {
      hide Bit, High, Ones, Sign, Value, Half, WellFormed, Fits, Plug, Items, At, Descending, Rep, RepPath, SlotOf, Diff,
        SlotValue, SlotValid, Allocator.Heap.Valid;
      bitPos' := HighestDifference(number, nodeNumber, bitPos, nodeBit, diff);
      OneHotValues(nodeBit, bitPos');
      Halving(bitPos');
      parent', path' := InjectBranch(parent, nptr, bitPos', number, was, path, cur, bitPos);
    }

    /** Bits above the node's position: skip them if they agree, otherwise branch on the highest
        one that does not. */
    method PassRun(parent: Slot, nptr: int, bitPos: bv32, number: bv32, ghost was: Trie, ghost path: Path, ghost cur: Trie)
      returns (injected: bool, parent': Slot, bitPos': bv32, ghost path': Path)
      requires heap.Valid() && Descending(heap.blocks, tree, was, number, path, cur, bitPos) && parent == SlotOf(path)
      requires !cur.Empty? && nptr == SlotValue(heap.blocks, tree, parent)
      modifies this, heap, heap.smallBlockHeaders
      ensures heap.Valid()
      ensures injected ==> Descending(heap.blocks, tree, was, number, path', Empty, Half(bitPos')) && parent' == SlotOf(path')
      ensures injected ==> Value(Half(bitPos')) >= 1 && 1 <= Size(cur)
      ensures !injected ==>
        && heap.blocks == old(heap.blocks) && tree == old(tree)
        && OneHot(bitPos') && bitPos' == cur.Pos() && AgreeAbove(number, cur.number, bitPos')
    {
      hide Bit, High, Ones, Sign, Value, Half, WellFormed, Fits, Plug, Items, At, Descending, Rep, RepPath, SlotOf, SlotValue, SlotValid,
        Diff, AgreeAbove, Size, Allocator.Heap.Valid;
      CurrentSlot(parent, was, number, path, cur, bitPos);
      SubtreeAgrees(heap.blocks, tree, was, number, path, cur, bitPos);
      EmptySize(cur);
      injected, parent', bitPos', path' := false, parent, bitPos, path;
      var nodeBit := LoadBits(nptr, BIT_POS, cur.Pos());
      OneHotValues(nodeBit, bitPos);
      if Value(bitPos) > Value(nodeBit) {
        var nodeNumber := LoadBits(nptr, NUMBER, cur.number);
        var diff := Diff(bitPos, nodeBit, number, nodeNumber);
        if diff != NONE {
          parent', bitPos', path' := InjectAtDifference(parent, nptr, bitPos, nodeBit, number, nodeNumber, diff, was, path, cur);
          injected := true;
        } else {
          SkipRun(number, cur.number, bitPos, nodeBit);
          bitPos' := nodeBit;
        }
      }
    }

    /** add_number */
    method AddNumber(number: bv32)
      requires Valid() && NonNegative(number)
      modifies this, heap, heap.smallBlockHeaders
      ensures Valid() && heap.blocks.Keys == Addrs(trie) && Added(old(trie), trie, number)
    {
      hide Bit, High, Ones, Sign, Value, Half, WellFormed, Fits, Plug, Items, At, Holds, Down, ChildOf, Descending, Rep, RepPath, SlotOf,
        SlotValue, SlotValid, Inserted, Added, Size, Addrs, Allocator.Heap.Valid;
      var parent: Slot := Root;
      var bitPos := MAX_BITS;
      ghost var path, cur, added := Top, trie, false;
      ghost var was := trie;
      StartDescent(heap.blocks, tree, trie, number);
      ValueOfOne();
      MaxOneHot();
      LeafOrBranch(MAX_BITS);
      while Value(bitPos) >= 1
        invariant heap.Valid()
        invariant !added ==> Descending(heap.blocks, tree, was, number, path, cur, bitPos) && parent == SlotOf(path)
        invariant added ==> bitPos == NONE && Inserted(heap.blocks, tree, was, number, trie)
        invariant !added ==> Value(bitPos) >= 1
        decreases if added then 0 else 1 + Size(cur)
      {
        CurrentSlot(parent, was, number, path, cur, bitPos);
        var nptr := LoadSlot(parent);
        NullIsEmpty(cur, nptr);
        if nptr == NULL {
          AddLeaf(parent, number, was, path, cur, bitPos);
          InsertedMeans(heap.blocks, tree, was, number, trie);
          return;
        }
        var injected;
        ghost var open, path' := bitPos, path;
        injected, parent, bitPos, path' := PassRun(parent, nptr, bitPos, number, was, path, cur);
        if injected {
          EmptySize(cur);
          path, cur := path', Empty;
        } else {
          LeafOrBranch(bitPos);
          if Value(bitPos) > 1 {
            Halving(bitPos);
            parent := Field(nptr, if HasBit(number, bitPos) then ONE else ZERO);
            StepDown(heap.blocks, tree, was, number, path, cur, open);
            SmallerBelow(path, cur, number);
            path, cur := Down(path, cur, number), ChildOf(cur, number);
          } else {
            LeafAtOne(heap.blocks, tree, was, number, path, cur, open);
            CountAtLeaf(nptr, number, was, path, cur, open);
            ValueOfOne();
            added := true;
          }
        }
        bitPos := Half(bitPos);
      }
      InsertedMeans(heap.blocks, tree, was, number, trie);
    }

    /** Copies of one number, as many as are counted and fit. */
    method TakeSide(nptr: int, side: nat, number: bv32, buffer: array<bv32>, start: nat, end: nat) returns (to: nat)
      requires heap.Valid() && nptr in heap.blocks && side < |heap.blocks[nptr]| && 0 <= heap.blocks[nptr][side]
      requires start <= end <= buffer.Length && buffer as object != heap.smallBlockHeaders
      modifies heap, buffer
      ensures heap.Valid()
      ensures to == start + Min(end - start, old(heap.blocks[nptr][side]))
      ensures heap.blocks == old(heap.blocks)[nptr := old(heap.blocks[nptr])[side := old(heap.blocks[nptr][side]) - (to - start)]]
      ensures buffer[..] == Written(old(buffer[..]), start, Repeat(number, to - start))
    {
      hide Allocator.Heap.Valid;
      to := start;
      var count := heap.Fetch(nptr, side);
      assert heap.blocks[nptr] == old(heap.blocks[nptr])[side := count];
      while to < end && count != 0
        invariant start <= to <= end && heap.Valid()
        invariant nptr in heap.blocks && side < |heap.blocks[nptr]| && count == heap.blocks[nptr][side]
        invariant 0 <= count == old(heap.blocks[nptr][side]) - (to - start)
        invariant heap.blocks == old(heap.blocks)[nptr := old(heap.blocks[nptr])[side := count]]
        invariant buffer[..start] == old(buffer[..start]) && buffer[to..] == old(buffer[to..])
        invariant forall i :: start <= i < to ==> buffer[i] == number
        decreases end - to
      {
        buffer[to] := number;
        to := to + 1;
        heap.Store(nptr, side, count - 1);
        count := heap.Fetch(nptr, side);
        assert heap.blocks[nptr] == old(heap.blocks[nptr])[side := count];
      }
    }

    /** Both counted numbers of a leaf, the even one first. */
    method TakeSides(nptr: int, number: bv32, buffer: array<bv32>, start: nat, end: nat) returns (to: nat)
      requires heap.Valid() && nptr in heap.blocks && |heap.blocks[nptr]| >= NODE_WORDS
      requires 0 <= heap.blocks[nptr][ZERO] && 0 <= heap.blocks[nptr][ONE]
      requires start <= end <= buffer.Length && buffer as object != heap.smallBlockHeaders
      modifies heap, buffer
      ensures heap.Valid()
      ensures var words := old(heap.blocks[nptr]);
        var z := Min(end - start, words[ZERO]); var o := Min(end - start - z, words[ONE]);
        && to == start + z + o
        && heap.blocks == old(heap.blocks)[nptr := LeafWords(words, z, o)]
        && buffer[..] == Written(old(buffer[..]), start, Repeat(EvenOf(number), z) + Repeat(OddOf(number), o))
    {
      hide Allocator.Heap.Valid, EvenOf, OddOf, Written, Repeat;
      var mid := TakeSide(nptr, ZERO, EvenOf(number), buffer, start, end);
      to := TakeSide(nptr, ONE, OddOf(number), buffer, mid, end);
      WrittenTwice(old(buffer[..]), start, Repeat(EvenOf(number), mid - start), Repeat(OddOf(number), to - mid));
    }

    /** Take numbers at a leaf; an emptied leaf is released and unlinked. */
    method TakeLeaf(parent: Slot, nptr: int, ghost t: Trie, buffer: array<bv32>, start: nat, end: nat) returns (to: nat)
      requires heap.Valid() && Ready(heap.blocks, tree, parent, t) && t.Leaf? && nptr == t.addr
      requires start <= end <= buffer.Length && buffer as object != heap.smallBlockHeaders
      modifies this`tree, heap, heap.smallBlockHeaders, buffer
      ensures heap.Valid() && Taken(old(heap.blocks), old(tree), heap.blocks, tree, parent, t, Drop(t, end - start))
      ensures to == start + |Smallest(t, end - start)| && buffer[..] == Written(old(buffer[..]), start, Smallest(t, end - start))
    {
      hide Allocator.Heap.Valid, Bit, High, Ones, Sign, Value, Half, EvenOf, OddOf, Ready, Taken, Smallest, Drop, Items, WellFormed,
        Written, Repeat, LeafWords;
      LeafReady(heap.blocks, tree, parent, t);
      var number := LoadBits(nptr, NUMBER, t.number);
      ghost var z := Min(end - start, t.countZero);
      ghost var o := Min(end - start - z, t.countOne);
      LeafTaken(heap.blocks, tree, parent, t, end - start, z, o);
      to := TakeSides(nptr, number, buffer, start, end);
      var left0 := heap.Fetch(nptr, ZERO);
      var left1 := heap.Fetch(nptr, ONE);
      if left0 == 0 && left1 == 0 {
        heap.Release(nptr);
        StoreSlot(parent, NULL);
      }
    }

    /** take_numbers_2 */
    method TakeNumbers2(parent: Slot, ghost t: Trie, buffer: array<bv32>, start: nat, end: nat) returns (to: nat)
      requires heap.Valid() && Ready(heap.blocks, tree, parent, t)
      requires start <= end <= buffer.Length && buffer as object != heap.smallBlockHeaders
      modifies this`tree, heap, heap.smallBlockHeaders, buffer
      ensures heap.Valid() && Taken(old(heap.blocks), old(tree), heap.blocks, tree, parent, t, Drop(t, end - start))
      ensures to == start + |Smallest(t, end - start)| && buffer[..] == Written(old(buffer[..]), start, Smallest(t, end - start))
      decreases t
    {
      hide Allocator.Heap.Valid, Bit, High, Ones, Sign, Value, Half, Ready, Taken, Smallest, Drop, Items, WellFormed, Written;
      ReadySlot(heap.blocks, tree, parent, t);
      var nptr := LoadSlot(parent);
      NullIsEmpty(t, nptr);
      if nptr == NULL {
        to := start;
        TakenNothing(heap.blocks, tree, parent);
        EmptyTakes(buffer[..], start, end - start);
        return;
      }
      ReadyNode(heap.blocks, tree, parent, t);
      var bitPos := LoadBits(nptr, BIT_POS, t.Pos());
      if bitPos == LOWEST {
        to := TakeLeaf(parent, nptr, t, buffer, start, end);
      } else {
        to := TakeBranch(parent, nptr, t, buffer, start, end);
      }
    }

    /** Take from both subtrees; a branch without any is released and unlinked. */
    method TakeBranch(parent: Slot, nptr: int, ghost t: Trie, buffer: array<bv32>, start: nat, end: nat) returns (to: nat)
      requires heap.Valid() && Ready(heap.blocks, tree, parent, t) && t.Branch? && nptr == t.addr
      requires start <= end <= buffer.Length && buffer as object != heap.smallBlockHeaders
      modifies this`tree, heap, heap.smallBlockHeaders, buffer
      ensures heap.Valid() && Taken(old(heap.blocks), old(tree), heap.blocks, tree, parent, t, Drop(t, end - start))
      ensures to == start + |Smallest(t, end - start)| && buffer[..] == Written(old(buffer[..]), start, Smallest(t, end - start))
      decreases t, 0
    {
      hide Allocator.Heap.Valid, Bit, High, Ones, Sign, Value, Half, Ready, Taken, Smallest, Drop, Items, WellFormed, Written;
      ghost var blocks := heap.blocks;
      ReadySlot(blocks, tree, parent, t);
      ReadyZero(blocks, tree, parent, t);
      SmallestOfBranch(t, end - start);
      var mid := TakeNumbers2(Field(nptr, ZERO), t.zero, buffer, start, end);
      ghost var b1, z' := heap.blocks, Drop(t.zero, end - start);
      TakenTree(blocks, old(tree), b1, tree, Field(nptr, ZERO), t.zero, z');
      ReadyOne(blocks, tree, b1, parent, t, z');
      to := TakeNumbers2(Field(nptr, ONE), t.one, buffer, mid, end);
      ghost var b2, o' := heap.blocks, Drop(t.one, end - mid);
      TakenTree(b1, old(tree), b2, tree, Field(nptr, ONE), t.one, o');
      WrittenTwice(old(buffer[..]), start, Smallest(t.zero, end - start), Smallest(t.one, end - mid));
      TakenFromBranch(blocks, tree, b1, b2, parent, t, z', o');
      TakenBothNode(blocks, tree, b1, b2, parent, t, z', o');
      NullIsEmpty(z', heap.blocks[nptr][ZERO]);
      NullIsEmpty(o', heap.blocks[nptr][ONE]);
      var zero := heap.Fetch(nptr, ZERO);
      var one := heap.Fetch(nptr, ONE);
      if zero == NULL && one == NULL {
        TakenAllOfBranch(blocks, tree, b1, b2, parent, t);
        heap.Release(nptr);
        StoreSlot(parent, NULL);
      }
    }

    /** take_numbers */
    method TakeNumbers(buffer: array<bv32>, maxNums: nat) returns (taken: nat)
      requires Valid() && maxNums <= buffer.Length && buffer as object != heap.smallBlockHeaders
      modifies this, heap, heap.smallBlockHeaders, buffer
      ensures Valid() && heap.blocks.Keys == Addrs(trie) && trie == Drop(old(trie), maxNums)
      ensures taken == |Smallest(old(trie), maxNums)|
      ensures buffer[..] == Smallest(old(trie), maxNums) + old(buffer[taken..])
    {
      hide Allocator.Heap.Valid, Bit, High, Ones, Sign, Value, Half, Holds, Ready, Taken, Smallest, Drop, Items, WellFormed;
      RootReady(heap.blocks, tree, trie);
      taken := TakeNumbers2(Root, trie, buffer, 0, maxNums);
      RootTaken(old(heap.blocks), old(tree), heap.blocks, tree, trie, maxNums);
      trie := Drop(trie, maxNums);
    }

    /** release_tree */
    method ReleaseTree(node: int, ghost t: Trie)
      requires heap.Valid() && Rep(heap.blocks, node, t) && Distinct(t) && WellFormed(t)
      modifies heap, heap.smallBlockHeaders
      ensures heap.Valid() && heap.blocks == old(heap.blocks) - Addrs(t)
      decreases t
    {
      hide Allocator.Heap.Valid, Bit, High, Ones, Sign, Value, Half, Rep, Distinct, WellFormed;
      NullIsEmpty(t, node);
      NodeParts(heap.blocks, node, t);
      if node != NULL {
        var bitPos := LoadBits(node, BIT_POS, t.Pos());
        if Value(bitPos) > 1 {
          ghost var blocks := heap.blocks;
          var zero := heap.Fetch(node, ZERO);
          ReleaseTree(zero, t.zero);
          RepFrame(blocks, heap.blocks, blocks[node][ONE], t.one);
          var one := heap.Fetch(node, ONE);
          ReleaseTree(one, t.one);
        }
        heap.Release(node);
      }
    }
  }
}
