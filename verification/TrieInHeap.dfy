/** How a trie lies in the live blocks of the heap: one block a node, four words a block. */
module TrieInHeap {
  import opened Bits
  import opened Pointers
  import opened Trie

  // Words of a node's payload.  Leaves keep their two counts where branches keep their links.
  const BIT_POS: nat := 0
  const NUMBER: nat := 1
  const ZERO: nat := 2
  const ONE: nat := 3
  const NODE_WORDS: nat := 4

  /** A place that holds a node pointer: the root variable or a link word of a node. */
  datatype Slot = Root | Field(addr: int, index: nat)

  ghost function Addrs(t: Trie): set<int> {
    match t
    case Empty => {}
    case Leaf(a, _, _, _) => {a}
    case Branch(a, _, _, z, o) => {a} + Addrs(z) + Addrs(o)
  }

  /** No block is used for two nodes. */
  ghost predicate Distinct(t: Trie) {
    t.Branch? ==>
      && t.addr !in Addrs(t.zero) && t.addr !in Addrs(t.one) && Addrs(t.zero) !! Addrs(t.one)
      && Distinct(t.zero) && Distinct(t.one)
  }

  ghost predicate Node(blocks: map<int, seq<int>>, a: int, bitPos: bv32, number: bv32) {
    a in blocks && |blocks[a]| >= NODE_WORDS && blocks[a][BIT_POS] == bitPos as int && blocks[a][NUMBER] == number as int
  }

  /** Pointer `ptr` leads to trie `t`. */
  ghost predicate Rep(blocks: map<int, seq<int>>, ptr: int, t: Trie)
    decreases t
  {
    match t
    case Empty => ptr == NULL
    case Leaf(a, n, c0, c1) => ptr == a && Node(blocks, a, LOWEST, n) && blocks[a][ZERO] == c0 && blocks[a][ONE] == c1
    case Branch(a, p, n, z, o) =>
      ptr == a && Node(blocks, a, p, n) && Rep(blocks, blocks[a][ZERO], z) && Rep(blocks, blocks[a][ONE], o)
  }

  lemma {:induction false} RepLive(blocks: map<int, seq<int>>, ptr: int, t: Trie)
    requires Rep(blocks, ptr, t)
    ensures Addrs(t) <= blocks.Keys
    ensures !t.Empty? ==> ptr == t.addr && ptr in blocks
    decreases t
  {
    if t.Branch? {
      RepLive(blocks, blocks[ptr][ZERO], t.zero);
      RepLive(blocks, blocks[ptr][ONE], t.one);
    }
  }

  /** Only the blocks of its own nodes matter to a trie. */
  lemma {:induction false} RepFrame(blocks: map<int, seq<int>>, blocks': map<int, seq<int>>, ptr: int, t: Trie)
    requires Rep(blocks, ptr, t)
    requires forall a :: a in Addrs(t) ==> a in blocks && a in blocks' && blocks'[a] == blocks[a]
    ensures Rep(blocks', ptr, t)
    decreases t
  {
    if t.Branch? {
      RepFrame(blocks, blocks', blocks[ptr][ZERO], t.zero);
      RepFrame(blocks, blocks', blocks[ptr][ONE], t.one);
    }
  }

  // ----- paths in the heap -----

  ghost function SlotOf(p: Path): Slot {
    match p
    case Top => Root
    case InZero(a, _, _, _, _) => Field(a, ZERO)
    case InOne(a, _, _, _, _) => Field(a, ONE)
  }

  ghost predicate SlotValid(blocks: map<int, seq<int>>, s: Slot) {
    s.Field? ==> s.addr in blocks && s.index < |blocks[s.addr]|
  }

  ghost function SlotValue(blocks: map<int, seq<int>>, tree: int, s: Slot): int
    requires SlotValid(blocks, s)
  {
    if s.Root? then tree else blocks[s.addr][s.index]
  }

  /** `blocks` after a store through slot `s`. */
  ghost function SlotUpdate(blocks: map<int, seq<int>>, s: Slot, ptr: int): map<int, seq<int>>
    requires SlotValid(blocks, s)
  {
    if s.Root? then blocks else blocks[s.addr := blocks[s.addr][s.index := ptr]]
  }

  ghost function PathAddrs(p: Path): set<int> {
    if p.Top? then {} else {p.addr} + Addrs(p.sibling) + PathAddrs(p.up)
  }

  ghost predicate DistinctPath(p: Path) {
    !p.Top? ==>
      && Distinct(p.sibling) && DistinctPath(p.up)
      && p.addr !in Addrs(p.sibling) && p.addr !in PathAddrs(p.up) && Addrs(p.sibling) !! PathAddrs(p.up)
  }

  /** The nodes along the path and their other subtrees are in the heap; the slot at the end of
      the path may hold anything. */
  ghost predicate RepPath(blocks: map<int, seq<int>>, tree: int, p: Path)
    ensures RepPath(blocks, tree, p) ==> SlotValid(blocks, SlotOf(p))
    decreases p
  {
    !p.Top? ==>
      && RepPath(blocks, tree, p.up) && SlotValue(blocks, tree, SlotOf(p.up)) == p.addr
      && Node(blocks, p.addr, p.bitPos, p.number)
      && Rep(blocks, blocks[p.addr][if p.InZero? then ONE else ZERO], p.sibling)
  }

  /** The heap holds exactly the trie made of a path and the subtree at its end. */
  ghost predicate Holds(blocks: map<int, seq<int>>, tree: int, p: Path, t: Trie) {
    && RepPath(blocks, tree, p) && Rep(blocks, SlotValue(blocks, tree, SlotOf(p)), t)
    && DistinctPath(p) && Distinct(t) && PathAddrs(p) !! Addrs(t)
    && blocks.Keys == PathAddrs(p) + Addrs(t)
  }

  /** Moving along a link keeps what the heap holds. */
  lemma Descend(blocks: map<int, seq<int>>, tree: int, p: Path, t: Trie)
    requires Holds(blocks, tree, p, t) && t.Branch?
    ensures Holds(blocks, tree, InZero(t.addr, t.bitPos, t.number, t.one, p), t.zero)
    ensures Holds(blocks, tree, InOne(t.addr, t.bitPos, t.number, t.zero, p), t.one)
  {
  }

  /** The lowest node of a path, with a subtree at its open side. */
  ghost function NodeAbove(p: Path, t: Trie): Trie
    requires !p.Top?
  {
    if p.InZero? then Branch(p.addr, p.bitPos, p.number, t, p.sibling) else Branch(p.addr, p.bitPos, p.number, p.sibling, t)
  }

  lemma NodeAboveSets(p: Path, t: Trie)
    requires !p.Top? && DistinctPath(p) && Distinct(t) && PathAddrs(p) !! Addrs(t)
    ensures var n := NodeAbove(p, t);
      DistinctPath(p.up) && Distinct(n) && PathAddrs(p.up) !! Addrs(n) && PathAddrs(p.up) + Addrs(n) == PathAddrs(p) + Addrs(t)
  {
  }

  /** Moving back along a link keeps what the heap holds. */
  lemma Ascend(blocks: map<int, seq<int>>, tree: int, p: Path, t: Trie)
    requires Holds(blocks, tree, p, t) && !p.Top?
    ensures Holds(blocks, tree, p.up, NodeAbove(p, t)) && Plug(p, t) == Plug(p.up, NodeAbove(p, t))
  {
    hide DistinctPath, Distinct, PathAddrs, Addrs, Node;
    NodeAboveSets(p, t);
  }

  /** Going back to the root gives the whole trie. */
  lemma {:induction false} ToRoot(blocks: map<int, seq<int>>, tree: int, p: Path, t: Trie)
    requires Holds(blocks, tree, p, t)
    ensures Holds(blocks, tree, Top, Plug(p, t))
    decreases p
  {
    hide Holds;
    if p.Top? {
      assert Plug(p, t) == t;
    } else {
      Ascend(blocks, tree, p, t);
      ToRoot(blocks, tree, p.up, NodeAbove(p, t));
    }
  }

  /** The nodes of a path do not depend on the slot at its end, nor on other blocks. */
  lemma {:induction false} PathFrame(blocks: map<int, seq<int>>, tree: int, blocks': map<int, seq<int>>, tree': int, p: Path, ptr: int)
    requires RepPath(blocks, tree, p) && DistinctPath(p)
    requires PathAddrs(p) <= blocks.Keys && PathAddrs(p) <= blocks'.Keys
    requires forall a :: a in PathAddrs(p) ==> blocks'[a] == SlotUpdate(blocks, SlotOf(p), ptr)[a]
    requires tree' == if p.Top? then ptr else tree
    ensures RepPath(blocks', tree', p) && SlotValue(blocks', tree', SlotOf(p)) == ptr
    decreases p
  {
    hide Rep, Distinct, Addrs;
    if !p.Top? {
      PathFrame(blocks, tree, blocks', tree', p.up, SlotValue(blocks, tree, SlotOf(p.up)));
      RepFrame(blocks, blocks', blocks[p.addr][if p.InZero? then ONE else ZERO], p.sibling);
    }
  }

  /** Putting another subtree at the end of the path. */
  lemma Replaced(blocks: map<int, seq<int>>, tree: int, blocks': map<int, seq<int>>, tree': int, p: Path, t: Trie,
                 ptr: int, t': Trie)
    requires Holds(blocks, tree, p, t)
    requires tree' == if p.Top? then ptr else tree
    requires blocks'.Keys == PathAddrs(p) + Addrs(t')
    requires forall a :: a in PathAddrs(p) ==> blocks'[a] == SlotUpdate(blocks, SlotOf(p), ptr)[a]
    requires Rep(blocks', ptr, t') && Distinct(t') && PathAddrs(p) !! Addrs(t')
    ensures Holds(blocks', tree', p, t')
  {
    PathFrame(blocks, tree, blocks', tree', p, ptr);
  }

  lemma {:induction false} DropAddrs(t: Trie, k: int)
    requires WellFormed(t) && 0 <= k && Distinct(t)
    ensures WellFormed(Drop(t, k)) && Addrs(Drop(t, k)) <= Addrs(t) && Distinct(Drop(t, k))
  {
    hide Bit, High, Ones, Sign, Value, Half, EvenOf, OddOf, Child;
    DropWellFormed(t, k);
    if t.Branch? {
      DropAddrs(t.zero, k);
      DropAddrs(t.one, k - Min(k, |Items(t.zero)|));
    }
  }
}
