/** The radix tree as a value: its shape and what it stores. */
module Trie {

  import opened Bits

  // ----- tries -----

  datatype Trie =
    | Empty
    | Leaf(addr: int, number: bv32, countZero: int, countOne: int)
    | Branch(addr: int, bitPos: bv32, number: bv32, zero: Trie, one: Trie)
  {
    function Pos(): bv32
      requires !Empty?
    {
      if Leaf? then LOWEST else bitPos
    }
  }

  /** Child `c` may hang below a node for `number` that branches on `bitPos`. */
  ghost predicate Child(c: Trie, bitPos: bv32, number: bv32, side: bool) {
    c.Empty? || (Value(c.Pos()) < Value(bitPos) && AgreeAbove(c.number, number, bitPos) && (HasBit(c.number, bitPos) <==> side))
  }

  lemma ChildAgrees(c: Trie, bitPos: bv32, number: bv32, side: bool, x: bv32)
    requires !c.Empty? && BranchBit(bitPos) && OneHot(c.Pos())
    requires Child(c, bitPos, number, side) && AgreeAbove(x, c.number, c.Pos())
    ensures AgreeAbove(x, number, bitPos) && (HasBit(x, bitPos) <==> side)
  {
    hide Bit, High, Ones, Sign, Value, Half, EvenOf, OddOf;
    BitBound(x, bitPos);
    BitBound(c.number, bitPos);
    AgreeUp(x, c.number, c.Pos(), bitPos);
  }

  /** Only the bit position and the number of a child matter to its parent. */
  lemma ChildSame(c: Trie, c': Trie, bitPos: bv32, number: bv32, side: bool)
    requires Child(c, bitPos, number, side)
    requires c'.Empty? || (!c.Empty? && c'.Pos() == c.Pos() && c'.number == c.number)
    ensures Child(c', bitPos, number, side)
  {
    hide Bit, High, Ones, Sign, Value, Half, EvenOf, OddOf;
  }

  /** Children branch on lower bits and hold the numbers of their side; every subtree agrees
      with its node's number on the bits above; no leaf is empty and no branch childless. */
  ghost predicate WellFormed(t: Trie) {
    match t
    case Empty => true
    case Leaf(_, n, c0, c1) => NonNegative(n) && 0 <= c0 && 0 <= c1 && 0 < c0 + c1
    case Branch(_, p, n, z, o) =>
      && NonNegative(n) && BranchBit(p)
      && Child(z, p, n, false) && Child(o, p, n, true)
      && WellFormed(z) && WellFormed(o)
      && (!z.Empty? || !o.Empty?)
  }

  ghost function Repeat(x: bv32, n: int): (s: seq<bv32>)
    requires 0 <= n
    ensures |s| == n
  {
    seq(n, i => x)
  }

  ghost function LeafItems(n: bv32, countZero: int, countOne: int): seq<bv32>
    requires 0 <= countZero && 0 <= countOne
  {
    Repeat(EvenOf(n), countZero) + Repeat(OddOf(n), countOne)
  }

  /** The stored numbers, smallest first. */
  ghost function Items(t: Trie): seq<bv32>
    requires WellFormed(t)
  {
    match t
    case Empty => []
    case Leaf(_, n, c0, c1) => LeafItems(n, c0, c1)
    case Branch(_, _, _, z, o) => Items(z) + Items(o)
  }

  ghost predicate Ascending(s: seq<bv32>) {
    forall i, j :: 0 <= i < j < |s| ==> Value(s[i]) <= Value(s[j])
  }

  lemma LeafItem(n: bv32, c0: int, c1: int, x: bv32)
    requires 0 <= c0 && 0 <= c1 && x in Repeat(EvenOf(n), c0) + Repeat(OddOf(n), c1)
    ensures x == EvenOf(n) || x == OddOf(n)
  {
    hide Bit, High, Ones, Sign, Value, Half, EvenOf, OddOf;
  }

  lemma {:induction false} ItemsAgree(t: Trie, x: bv32)
    requires WellFormed(t) && !t.Empty? && x in Items(t)
    ensures AgreeAbove(x, t.number, t.Pos()) && NonNegative(x)
    decreases t
  {
    hide Bit, High, Ones, Sign, Value, Half, EvenOf, OddOf, Child;
    match t
    case Leaf(_, n, c0, c1) =>
      LeafNumbers(n);
      LeafItem(n, c0, c1, x);
    case Branch(_, p, n, z, o) =>
      var c := if x in Items(z) then z else o;
      ItemsAgree(c, x);
      BitOneHot(c);
      ChildAgrees(c, p, n, x !in Items(z), x);
  }

  lemma BitOneHot(t: Trie)
    requires WellFormed(t) && !t.Empty?
    ensures OneHot(t.Pos()) && NonNegative(t.number)
  {
    hide Bit, High, Ones, Sign, Value;
    MaxOneHot();
  }

  /** Numbers on the zero side of a branch have its bit clear, those on the one side have it set. */
  lemma SideOfItem(t: Trie, c: Trie, side: bool, x: bv32)
    requires WellFormed(t) && t.Branch? && c == (if side then t.one else t.zero) && x in Items(c)
    ensures AgreeAbove(x, t.number, t.bitPos) && (HasBit(x, t.bitPos) <==> side)
  {
    hide Bit, High, Ones, Sign, Value, Half, EvenOf, OddOf, Child;
    ItemsAgree(c, x);
    BitOneHot(c);
    ChildAgrees(c, t.bitPos, t.number, side, x);
  }

  lemma AscendingConcat(a: seq<bv32>, b: seq<bv32>)
    requires Ascending(a) && Ascending(b) && forall x, y :: x in a && y in b ==> Value(x) <= Value(y)
    ensures Ascending(a + b)
  {
    hide Value;
    var s := a + b;
    forall i, j | 0 <= i < j < |s|
      ensures Value(s[i]) <= Value(s[j])
    {
      if i < |a| <= j { assert s[i] in a && s[j] in b; }
    }
  }

  lemma SidesOrdered(t: Trie, x: bv32, y: bv32)
    requires WellFormed(t) && t.Branch? && x in Items(t.zero) && y in Items(t.one)
    ensures Value(x) <= Value(y)
  {
    hide Bit, High, Ones, Sign, Value, Half, EvenOf, OddOf, Child;
    SideOfItem(t, t.zero, false, x);
    SideOfItem(t, t.one, true, y);
    BitBound(x, t.bitPos);
    ValueOrder(x, y, t.bitPos);
  }

  /** A well-formed trie lists its numbers in ascending order. */
  lemma {:induction false} ItemsAscending(t: Trie)
    requires WellFormed(t)
    ensures Ascending(Items(t))
  {
    hide Bit, High, Ones, Sign, Value, Half, EvenOf, OddOf, Child;
    match t
    case Empty =>
    case Leaf(_, n, c0, c1) =>
      LeafNumbers(n);
      AscendingConcat(Repeat(EvenOf(n), c0), Repeat(OddOf(n), c1));
    case Branch(_, p, n, z, o) =>
      ItemsAscending(z);
      ItemsAscending(o);
      forall x, y | x in Items(z) && y in Items(o)
        ensures Value(x) <= Value(y)
      {
        SidesOrdered(t, x, y);
      }
      AscendingConcat(Items(z), Items(o));
  }

  lemma {:induction false} ItemsNonEmpty(t: Trie)
    requires WellFormed(t)
    ensures t.Empty? <==> Items(t) == []
  {
    hide Bit, High, Ones, Sign, Value, Half, EvenOf, OddOf, Child;
    match t
    case Empty =>
    case Leaf(_, _, _, _) =>
    case Branch(_, _, _, z, o) => ItemsNonEmpty(z); ItemsNonEmpty(o);
  }

  // ----- taking the smallest numbers -----

  function Min(a: int, b: int): int { if a < b then a else b }

  /** What is left of `t` after its `k` smallest numbers have been taken. */
  ghost function Drop(t: Trie, k: int): Trie
    requires WellFormed(t) && 0 <= k
  {
    match t
    case Empty => Empty
    case Leaf(a, n, c0, c1) =>
      var z := Min(k, c0);
      var o := Min(k - z, c1);
      if c0 == z && c1 == o then Empty else Leaf(a, n, c0 - z, c1 - o)
    case Branch(a, p, n, z, o) =>
      var z', o' := Drop(z, k), Drop(o, k - Min(k, |Items(z)|));
      if z'.Empty? && o'.Empty? then Empty else Branch(a, p, n, z', o')
  }

  lemma DropConcat<T>(a: seq<T>, b: seq<T>, k: int)
    requires 0 <= k
    ensures (a + b)[Min(k, |a + b|)..] == a[Min(k, |a|)..] + b[Min(k - Min(k, |a|), |b|)..]
  {
  }

  /** The `k` smallest numbers of `t`, or all of them. */
  ghost function Smallest(t: Trie, k: int): (s: seq<bv32>)
    requires WellFormed(t) && 0 <= k
    ensures |s| <= k
  {
    Items(t)[..Min(k, |Items(t)|)]
  }

  lemma TakeConcat<T>(a: seq<T>, b: seq<T>, k: int)
    requires 0 <= k
    ensures (a + b)[..Min(k, |a + b|)] == a[..Min(k, |a|)] + b[..Min(k - Min(k, |a|), |b|)]
  {
  }

  lemma SmallestOfBranch(t: Trie, k: int)
    requires WellFormed(t) && t.Branch? && 0 <= k
    ensures Smallest(t, k) == Smallest(t.zero, k) + Smallest(t.one, k - |Smallest(t.zero, k)|)
    ensures Drop(t, k) == Emptied(t, Drop(t.zero, k), Drop(t.one, k - |Smallest(t.zero, k)|))
  {
    hide Bit, High, Ones, Sign, Value, Half, EvenOf, OddOf, Child;
    TakeConcat(Items(t.zero), Items(t.one), k);
  }

  /** A branch with new children; without any it disappears. */
  ghost function Emptied(t: Trie, zero: Trie, one: Trie): Trie
    requires t.Branch?
  {
    if zero.Empty? && one.Empty? then Empty else Branch(t.addr, t.bitPos, t.number, zero, one)
  }

  lemma SmallestOfLeaf(t: Trie, k: int)
    requires WellFormed(t) && t.Leaf? && 0 <= k
    ensures var z := Min(k, t.countZero); var o := Min(k - z, t.countOne);
      && Smallest(t, k) == Repeat(EvenOf(t.number), z) + Repeat(OddOf(t.number), o)
      && Drop(t, k) == if z == t.countZero && o == t.countOne then Empty else t.(countZero := t.countZero - z, countOne := t.countOne - o)
  {
    hide Sign, EvenOf, OddOf;
    TakeConcat(Repeat(EvenOf(t.number), t.countZero), Repeat(OddOf(t.number), t.countOne), k);
  }

  /** A buffer after `items` have been written from position `start` on. */
  ghost function Written<T>(was: seq<T>, start: nat, items: seq<T>): seq<T>
    requires start + |items| <= |was|
  {
    was[..start] + items + was[start + |items|..]
  }

  lemma WrittenTwice<T>(was: seq<T>, start: nat, a: seq<T>, b: seq<T>)
    requires start + |a| + |b| <= |was|
    ensures Written(Written(was, start, a), start + |a|, b) == Written(was, start, a + b)
  {
  }

  lemma RepeatRest(x: bv32, n: int, k: int)
    requires 0 <= k <= n
    ensures Repeat(x, n)[k..] == Repeat(x, n - k)
  {
  }

  /** The members of a leaf without the first `k`. */
  lemma LeafRest(even: bv32, odd: bv32, countZero: int, countOne: int, k: int)
    requires 0 <= countZero && 0 <= countOne && 0 <= k
    ensures var z := Min(k, countZero); var o := Min(k - z, countOne);
      (Repeat(even, countZero) + Repeat(odd, countOne))[Min(k, countZero + countOne)..]
        == Repeat(even, countZero - z) + Repeat(odd, countOne - o)
  {
    hide Repeat;
    var z := Min(k, countZero);
    DropConcat(Repeat(even, countZero), Repeat(odd, countOne), k);
    RepeatRest(even, countZero, z);
    RepeatRest(odd, countOne, Min(k - z, countOne));
  }

  lemma DropLeaf(t: Trie, k: int)
    requires WellFormed(t) && t.Leaf? && 0 <= k
    ensures Items(Drop(t, k)) == Items(t)[Min(k, |Items(t)|)..]
  {
    hide Repeat, Sign, EvenOf, OddOf;
    LeafRest(EvenOf(t.number), OddOf(t.number), t.countZero, t.countOne, k);
    assert Repeat(EvenOf(t.number), 0) + Repeat(OddOf(t.number), 0) == [];
  }

  lemma EmptiedWellFormed(t: Trie, zero: Trie, one: Trie)
    requires WellFormed(t) && t.Branch? && WellFormed(zero) && WellFormed(one)
    requires Child(zero, t.bitPos, t.number, false) && Child(one, t.bitPos, t.number, true)
    ensures WellFormed(Emptied(t, zero, one))
  {
    hide Child, Value, Ones, Sign;
  }

  lemma {:induction false} DropWellFormed(t: Trie, k: int)
    requires WellFormed(t) && 0 <= k
    ensures WellFormed(Drop(t, k))
    ensures !Drop(t, k).Empty? ==> !t.Empty? && Drop(t, k).Pos() == t.Pos() && Drop(t, k).number == t.number
  {
    hide Bit, High, Ones, Sign, Value, Half, EvenOf, OddOf, Child, Items;
    match t
    case Empty =>
    case Leaf(_, _, _, _) =>
    case Branch(_, p, n, z, o) =>
      var k' := k - Min(k, |Items(z)|);
      DropWellFormed(z, k);
      DropWellFormed(o, k');
      ChildSame(z, Drop(z, k), p, n, false);
      ChildSame(o, Drop(o, k'), p, n, true);
      EmptiedWellFormed(t, Drop(z, k), Drop(o, k'));
  }

  /** What is left is the old list without its `k` smallest numbers. */
  lemma {:induction false} DropItems(t: Trie, k: int)
    requires WellFormed(t) && 0 <= k
    ensures WellFormed(Drop(t, k))
    ensures Items(Drop(t, k)) == Items(t)[Min(k, |Items(t)|)..]
  {
    hide Bit, High, Ones, Sign, Value, Half, EvenOf, OddOf, Child;
    DropWellFormed(t, k);
    match t
    case Empty =>
    case Leaf(_, _, _, _) => DropLeaf(t, k);
    case Branch(_, _, _, z, o) =>
      var k' := k - Min(k, |Items(z)|);
      DropItems(z, k);
      DropItems(o, k');
      DropConcat(Items(z), Items(o), k);
  }

  // ----- the path from the root to a slot -----

  /** A trie with one subtree cut out; `InZero` and `InOne` say on which side of the lowest
      node of the path it was. */
  datatype Path =
    | Top
    | InZero(addr: int, bitPos: bv32, number: bv32, sibling: Trie, up: Path)
    | InOne(addr: int, bitPos: bv32, number: bv32, sibling: Trie, up: Path)

  ghost function Plug(p: Path, t: Trie): Trie {
    match p
    case Top => t
    case InZero(a, b, n, o, up) => Plug(up, Branch(a, b, n, t, o))
    case InOne(a, b, n, z, up) => Plug(up, Branch(a, b, n, z, t))
  }

  /** `x` belongs to the subtree at the end of the path. */
  ghost predicate Fits(p: Path, x: bv32) {
    p.Top? || (AgreeAbove(x, p.number, p.bitPos) && (HasBit(x, p.bitPos) <==> p.InOne?) && Fits(p.up, x))
  }

  /** `t` may be plugged in at the end of the path. */
  ghost predicate FitsTrie(p: Path, t: Trie) {
    p.Top? || Child(t, p.bitPos, p.number, p.InOne?)
  }

  lemma {:induction false} PlugWellFormed(p: Path, t: Trie)
    requires WellFormed(Plug(p, t))
    ensures WellFormed(t) && FitsTrie(p, t)
    ensures !p.Top? ==> BranchBit(p.bitPos) && NonNegative(p.number)
    decreases p
  {
    hide Bit, High, Ones, Sign, Value, Half, EvenOf, OddOf, Child;
    match p
    case Top =>
    case InZero(a, b, n, o, up) => PlugWellFormed(up, Branch(a, b, n, t, o));
    case InOne(a, b, n, z, up) => PlugWellFormed(up, Branch(a, b, n, z, t));
  }

  lemma FitsSame(p: Path, t: Trie, t': Trie)
    requires FitsTrie(p, t) && !t.Empty? && !t'.Empty? && t'.Pos() == t.Pos() && t'.number == t.number
    ensures FitsTrie(p, t')
  {
    hide Bit, High, Ones, Sign, Value, Half, EvenOf, OddOf, Child;
    if !p.Top? { ChildSame(t, t', p.bitPos, p.number, p.InOne?); }
  }

  lemma Cancel<T>(a: multiset<T>, b: multiset<T>, c: multiset<T>, d: multiset<T>, s: multiset<T>)
    requires a + (b + s) == c + (d + s)
    ensures a + b == c + d
  {
    assert forall x :: (a + (b + s))[x] == (a + b)[x] + s[x] && (c + (d + s))[x] == (c + d)[x] + s[x];
  }

  lemma CancelSame<T>(a: multiset<T>, c: multiset<T>, s: multiset<T>)
    requires a + s == c + s
    ensures a == c
  {
    assert forall x :: (a + s)[x] == a[x] + s[x] && (c + s)[x] == c[x] + s[x];
  }

  /** Replacing the subtree at the end of the path changes the stored numbers by exactly what
      the replacement changes. */
  lemma BranchItems(t: Trie)
    requires WellFormed(t) && t.Branch?
    ensures WellFormed(t.zero) && WellFormed(t.one)
    ensures multiset(Items(t)) == multiset(Items(t.zero)) + multiset(Items(t.one)) == multiset(Items(t.one)) + multiset(Items(t.zero))
  {
    hide Child, Sign, Ones, Value;
  }

  /** A branch with another subtree on one side. */
  lemma BranchOther(a: int, b: bv32, n: bv32, side: bool, t: Trie, sibling: Trie, t': Trie)
    requires WellFormed(t') && !t'.Empty? && Child(t', b, n, side)
    requires WellFormed(if side then Branch(a, b, n, sibling, t) else Branch(a, b, n, t, sibling))
    ensures WellFormed(if side then Branch(a, b, n, sibling, t') else Branch(a, b, n, t', sibling))
  {
    hide Child, Sign, Ones, Value;
  }

  lemma {:induction false} Replace(p: Path, t: Trie, t': Trie)
    requires WellFormed(Plug(p, t)) && WellFormed(t) && WellFormed(t') && FitsTrie(p, t') && !t'.Empty?
    ensures WellFormed(Plug(p, t'))
    ensures multiset(Items(Plug(p, t'))) + multiset(Items(t)) == multiset(Items(Plug(p, t))) + multiset(Items(t'))
    decreases p
  {
    hide Bit, High, Ones, Sign, Value, Half, Child, Items, WellFormed;
    PlugWellFormed(p, t);
    match p
    case Top =>
    case InZero(a, b, n, o, up) =>
      PlugWellFormed(up, Branch(a, b, n, t, o));
      BranchOther(a, b, n, false, t, o, t');
      FitsSame(up, Branch(a, b, n, t, o), Branch(a, b, n, t', o));
      BranchItems(Branch(a, b, n, t, o));
      BranchItems(Branch(a, b, n, t', o));
      Replace(up, Branch(a, b, n, t, o), Branch(a, b, n, t', o));
      Cancel(multiset(Items(Plug(p, t'))), multiset(Items(t)), multiset(Items(Plug(p, t))), multiset(Items(t')), multiset(Items(o)));
    case InOne(a, b, n, z, up) =>
      PlugWellFormed(up, Branch(a, b, n, z, t));
      BranchOther(a, b, n, true, t, z, t');
      FitsSame(up, Branch(a, b, n, z, t), Branch(a, b, n, z, t'));
      BranchItems(Branch(a, b, n, z, t));
      BranchItems(Branch(a, b, n, z, t'));
      Replace(up, Branch(a, b, n, z, t), Branch(a, b, n, z, t'));
      Cancel(multiset(Items(Plug(p, t'))), multiset(Items(t)), multiset(Items(Plug(p, t))), multiset(Items(t')), multiset(Items(z)));
  }

  // ----- adding a number -----

  /** Exactly one occurrence of `x` more. */
  ghost predicate Added(t: Trie, t': Trie, x: bv32)
    requires WellFormed(t) && WellFormed(t')
  {
    multiset(Items(t')) == multiset(Items(t)) + multiset{x}
  }

  lemma AddedBelow(p: Path, t: Trie, t': Trie, x: bv32)
    requires WellFormed(Plug(p, t)) && WellFormed(t) && WellFormed(t') && FitsTrie(p, t') && !t'.Empty?
    requires Added(t, t', x)
    ensures WellFormed(Plug(p, t')) && Added(Plug(p, t), Plug(p, t'), x)
  {
    hide Bit, High, Ones, Sign, Value, Half, EvenOf, OddOf, WellFormed, FitsTrie, Plug, Items;
    Replace(p, t, t');
    var a, b, c := multiset(Items(Plug(p, t'))), multiset(Items(t)), multiset(Items(Plug(p, t)));
    assert a + b == c + (b + multiset{x}) == (c + multiset{x}) + b;
    CancelSame(a, c + multiset{x}, b);
  }

  /** Bit positions still open below the end of a path. */
  ghost predicate At(p: Path, bitPos: bv32) {
    if p.Top? then bitPos == MAX_BITS else BranchBit(p.bitPos) && bitPos == Half(p.bitPos)
  }

  lemma AtOneHot(p: Path, bitPos: bv32)
    requires At(p, bitPos)
    ensures OneHot(bitPos)
  {
    MaxOneHot();
    if !p.Top? { Halving(p.bitPos); }
  }

  /** A number that belongs at the end of a path agrees with the subtree there on every bit
      above the open ones. */
  lemma PathAgrees(p: Path, t: Trie, bitPos: bv32, x: bv32)
    requires At(p, bitPos) && Fits(p, x) && NonNegative(x) && FitsTrie(p, t) && WellFormed(t) && !t.Empty?
    ensures OneHot(t.Pos()) && Value(t.Pos()) <= Value(bitPos) && AgreeAbove(x, t.number, bitPos)
  {
    hide Bit, High, Ones, Sign, Value, Half;
    BitOneHot(t);
    if p.Top? {
      AgreeTop(x, t.number);
      BelowMax(t.Pos());
    } else {
      BitBound(x, p.bitPos);
      BitBound(t.number, p.bitPos);
      AgreeHalf(x, t.number, p.bitPos);
      HalfBound(t.Pos(), p.bitPos);
    }
  }

  lemma LessThanParent(p: Path, bitPos: bv32, b: bv32)
    requires !p.Top? && At(p, bitPos) && Value(b) <= Value(bitPos)
    ensures Value(b) < Value(p.bitPos)
  {
    hide Value, Half, Ones;
    Halving(p.bitPos);
  }

  lemma FitsNumber(p: Path, bitPos: bv32, t: Trie, x: bv32)
    requires At(p, bitPos) && Fits(p, x) && !t.Empty? && t.number == x && Value(t.Pos()) <= Value(bitPos)
    ensures FitsTrie(p, t)
  {
    hide Bit, High, Ones, Sign, Value, Half, EvenOf, OddOf, At;
    if !p.Top? { LessThanParent(p, bitPos, t.Pos()); }
  }

  /** The node made for a number whose slot is free. */
  ghost function NewLeaf(addr: int, x: bv32): Trie {
    Leaf(addr, x, if HasBit(x, LOWEST) then 0 else 1, if HasBit(x, LOWEST) then 1 else 0)
  }

  /** A leaf that has counted one more occurrence of `x`. */
  ghost function Counted(t: Trie, x: bv32): Trie
    requires t.Leaf?
  {
    if HasBit(x, LOWEST) then t.(countOne := t.countOne + 1) else t.(countZero := t.countZero + 1)
  }

  lemma AddNewLeaf(p: Path, bitPos: bv32, addr: int, x: bv32)
    requires At(p, bitPos) && Fits(p, x) && NonNegative(x) && WellFormed(Plug(p, Empty))
    ensures var t' := NewLeaf(addr, x); WellFormed(Plug(p, t')) && Added(Plug(p, Empty), Plug(p, t'), x)
  {
    hide Bit, High, Ones, Sign, Value, Half, EvenOf, OddOf, FitsTrie, Fits, Plug, At;
    var t' := NewLeaf(addr, x);
    LeafBits(x, x);
    AtOneHot(p, bitPos);
    MaxOneHot();
    ValueOfOne();
    LeafOrBranch(bitPos);
    FitsNumber(p, bitPos, t', x);
    assert Items(t') == [x];
    AddedBelow(p, Empty, t', x);
  }

  lemma OneMore(x: bv32, y: bv32, a: int, b: int)
    requires 0 <= a && 0 <= b
    ensures multiset(Repeat(x, a + 1) + Repeat(y, b)) == multiset(Repeat(x, a) + Repeat(y, b)) + multiset{x}
    ensures multiset(Repeat(y, b) + Repeat(x, a + 1)) == multiset(Repeat(y, b) + Repeat(x, a)) + multiset{x}
  {
    assert Repeat(x, a + 1) == Repeat(x, a) + [x];
  }

  lemma OneMoreItem(n: bv32, c0: int, c1: int)
    requires 0 <= c0 && 0 <= c1
    ensures multiset(LeafItems(n, c0, c1 + 1)) == multiset(LeafItems(n, c0, c1)) + multiset{OddOf(n)}
    ensures multiset(LeafItems(n, c0 + 1, c1)) == multiset(LeafItems(n, c0, c1)) + multiset{EvenOf(n)}
  {
    hide EvenOf, OddOf;
    OneMore(OddOf(n), EvenOf(n), c1, c0);
    OneMore(EvenOf(n), OddOf(n), c0, c1);
  }

  lemma OneMoreInLeaf(a: int, n: bv32, c0: int, c1: int)
    requires WellFormed(Leaf(a, n, c0, c1))
    ensures WellFormed(Leaf(a, n, c0, c1 + 1)) && Added(Leaf(a, n, c0, c1), Leaf(a, n, c0, c1 + 1), OddOf(n))
    ensures WellFormed(Leaf(a, n, c0 + 1, c1)) && Added(Leaf(a, n, c0, c1), Leaf(a, n, c0 + 1, c1), EvenOf(n))
  {
    hide Sign, EvenOf, OddOf, LeafItems;
    OneMoreItem(n, c0, c1);
  }

  lemma CountedAdded(t: Trie, x: bv32)
    requires WellFormed(t) && t.Leaf? && AgreeAbove(x, t.number, LOWEST)
    ensures WellFormed(Counted(t, x)) && Added(t, Counted(t, x), x)
  {
    hide Bit, High, EvenOf, OddOf, WellFormed, Items, Added;
    LeafBits(x, t.number);
    OneMoreInLeaf(t.addr, t.number, t.countZero, t.countOne);
  }

  lemma AddToLeaf(p: Path, t: Trie, x: bv32)
    requires WellFormed(Plug(p, t)) && t.Leaf? && AgreeAbove(x, t.number, LOWEST)
    ensures var t' := Counted(t, x); WellFormed(Plug(p, t')) && Added(Plug(p, t), Plug(p, t'), x)
  {
    hide Bit, High, Ones, Sign, Value, Half, EvenOf, OddOf, WellFormed, FitsTrie, Plug;
    PlugWellFormed(p, t);
    CountedAdded(t, x);
    FitsSame(p, t, Counted(t, x));
    AddedBelow(p, t, Counted(t, x), x);
  }

  /** The branch injected above `t`, with the slot for `x` still free. */
  ghost function Injected(addr: int, b: bv32, x: bv32, t: Trie): Trie {
    if HasBit(x, b) then Branch(addr, b, x, t, Empty) else Branch(addr, b, x, Empty, t)
  }

  lemma InjectedWellFormed(addr: int, b: bv32, t: Trie, x: bv32)
    requires NonNegative(x) && WellFormed(t) && !t.Empty? && BranchBit(b) && Value(t.Pos()) < Value(b)
    requires AgreeAbove(x, t.number, b) && Bit(x, b) != Bit(t.number, b)
    ensures var t' := Injected(addr, b, x, t); !t'.Empty? && t'.number == x && t'.Pos() == b
    ensures WellFormed(Injected(addr, b, x, t)) && Items(Injected(addr, b, x, t)) == Items(t)
  {
    hide Bit, High, Ones, Sign, Value, Half, EvenOf, OddOf, LeafItems, NonNegative;
    BitBound(x, b);
    BitBound(t.number, b);
    assert Child(t, b, x, !HasBit(x, b));
    hide Child;
  }

  lemma Inject(p: Path, bitPos: bv32, addr: int, b: bv32, t: Trie, x: bv32)
    requires At(p, bitPos) && Fits(p, x) && NonNegative(x) && WellFormed(Plug(p, t)) && WellFormed(t) && !t.Empty?
    requires BranchBit(b) && Value(t.Pos()) < Value(b) && Value(b) <= Value(bitPos)
    requires AgreeAbove(x, t.number, b) && Bit(x, b) != Bit(t.number, b)
    ensures var t' := Injected(addr, b, x, t);
      WellFormed(Plug(p, t')) && multiset(Items(Plug(p, t'))) == multiset(Items(Plug(p, t)))
  {
    hide Bit, High, Ones, Sign, Value, Half, EvenOf, OddOf, WellFormed, FitsTrie, Fits, Plug, At, Injected;
    var t' := Injected(addr, b, x, t);
    InjectedWellFormed(addr, b, t, x);
    FitsNumber(p, bitPos, t', x);
    Replace(p, t, t');
    CancelSame(multiset(Items(Plug(p, t'))), multiset(Items(Plug(p, t))), multiset(Items(t)));
  }

  /** The path one node further down, on the side of `x`. */
  ghost function Down(p: Path, t: Trie, x: bv32): Path
    requires t.Branch?
  {
    if HasBit(x, t.bitPos) then InOne(t.addr, t.bitPos, t.number, t.zero, p)
    else InZero(t.addr, t.bitPos, t.number, t.one, p)
  }

  ghost function ChildOf(t: Trie, x: bv32): Trie
    requires t.Branch?
  {
    if HasBit(x, t.bitPos) then t.one else t.zero
  }

  lemma GoDown(p: Path, t: Trie, x: bv32)
    requires WellFormed(t) && t.Branch? && Fits(p, x) && AgreeAbove(x, t.number, t.bitPos)
    ensures Plug(Down(p, t, x), ChildOf(t, x)) == Plug(p, t)
    ensures Fits(Down(p, t, x), x)
  {
    hide Bit, High, Ones, Sign, Value, Half, EvenOf, OddOf, Child;
  }

  lemma GoDownAt(p: Path, t: Trie, x: bv32)
    requires t.Branch? && BranchBit(t.bitPos)
    ensures At(Down(p, t, x), Half(t.bitPos))
  {
    hide Bit, High, Ones, Sign, Value, Half, EvenOf, OddOf;
  }

  ghost function Size(t: Trie): nat {
    if t.Branch? then 1 + Size(t.zero) + Size(t.one) else if t.Leaf? then 1 else 0
  }

  /** The largest count in a leaf. */
  ghost function MaxCount(t: Trie): int {
    match t
    case Empty => 0
    case Leaf(_, _, c0, c1) => if c0 < c1 then c1 else c0
    case Branch(_, _, _, z, o) => if MaxCount(z) < MaxCount(o) then MaxCount(o) else MaxCount(z)
  }

  lemma {:induction false} MaxCountBound(t: Trie)
    requires WellFormed(t)
    ensures MaxCount(t) <= |Items(t)|
  {
    hide Child, Ones, Value, Sign;
    if t.Branch? {
      MaxCountBound(t.zero);
      MaxCountBound(t.one);
    }
  }
}
