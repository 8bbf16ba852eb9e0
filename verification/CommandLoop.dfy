/** The add/take command loop, and the sorted-multiset machine it behaves like. */
module CommandLoop {
  import opened Bits
  import opened Trie
  import opened TrieInHeap
  import opened RadixStore
  import Allocator

  const OUT_BUFFER: nat := 2800

  // ----- the reference machine: an ascending sequence of numbers -----

  function Insert(s: seq<bv32>, x: bv32): seq<bv32> {
    if s == [] || Value(x) <= Value(s[0]) then [x] + s else [s[0]] + Insert(s[1..], x)
  }

  /** How many numbers a negative command `w` asks for. */
  function Magnitude(w: bv32): nat { Value(Neg(w)) }

  /** How many the loop tries to take: negating the command is 32-bit signed arithmetic, and a
      limit that is still negative ends the loop at once. */
  function TakeAmount(w: bv32): nat { if NonNegative(Neg(w)) then Magnitude(w) else 0 }

  datatype Machine = Machine(stored: seq<bv32>, out: seq<bv32>)

  function Step(m: Machine, w: bv32): Machine {
    if NonNegative(w) then
      m.(stored := Insert(m.stored, w))
    else
      var k := Min(TakeAmount(w), |m.stored|);
      Machine(m.stored[k..], m.out + m.stored[..k])
  }

  function Run(m: Machine, commands: seq<bv32>): Machine
    decreases |commands|
  {
    if commands == [] then m else Step(Run(m, commands[..|commands| - 1]), commands[|commands| - 1])
  }

  /** The commands of a series of inputs, up to the first read that delivers none. */
  function Commands(inputs: seq<seq<bv32>>): seq<bv32> {
    if inputs == [] || inputs[0] == [] then [] else inputs[0] + Commands(inputs[1..])
  }

  /** The only negative command that does not take its magnitude is the smallest integer. */
  lemma TakeAmountExact(w: bv32)
    requires !NonNegative(w)
    ensures TakeAmount(w) == Magnitude(w) <==> w != 0x8000_0000
  {
    hide Value;
    NegSign(w);
    ValuePositive(Neg(w));
  }

  /** That one takes nothing at all. */
  lemma SmallestTakesNothing(m: Machine)
    ensures Magnitude(0x8000_0000) > 0 && !NonNegative(0x8000_0000)
    ensures Step(m, 0x8000_0000) == m
  {
    hide Value;
    NegSign(0x8000_0000);
    ValuePositive(Neg(0x8000_0000));
    assert m.stored[0..] == m.stored && m.out + m.stored[..0] == m.out;
  }

  /** The command -N hands out N numbers, or all there are, if and only if it is not the smallest integer
      or there are none; N is what is missing from the command's 32 bits to 2^32. */
  lemma NegativeCommandExact(m: Machine, w: bv32)
    requires !NonNegative(w)
    ensures 0x1_0000_0000 - Value(w) > 0
    ensures var k := Min(0x1_0000_0000 - Value(w), |m.stored|);
      Step(m, w) == Machine(m.stored[k..], m.out + m.stored[..k]) <==> w != 0x8000_0000 || m.stored == []
  {
    hide Value, Magnitude, TakeAmount, NonNegative;
    TakeAmountExact(w);
    NotZero(w);
    ValueOfNeg(w);
    MagnitudeIs(w);
    NegNotZero(w);
    ValuePositive(Neg(w));
    if w == 0x8000_0000 {
      SmallestTakesNothing(m);
      var k := Min(Magnitude(w), |m.stored|);
      assert |m.stored[k..]| == |m.stored| - k;
      if k == 0 { assert m.stored[0..] == m.stored && m.out + m.stored[..0] == m.out; }
    }
  }

  lemma MagnitudeIs(w: bv32)
    ensures Magnitude(w) == Value(Neg(w))
  {
    hide Value;
  }

  lemma NotZero(w: bv32)
    requires !NonNegative(w)
    ensures w != 0
  {
  }

  lemma NegNotZero(w: bv32)
    requires w != 0
    ensures Neg(w) != 0
  {
  }

  lemma NegSign(w: bv32)
    requires Sign(w) == 1
    ensures Sign(Neg(w)) == 0 <==> w != 0x8000_0000
    ensures Neg(w) != 0
  {
  }

  // ----- the machine's state is determined by what it holds -----

  lemma AscendingCons(y: bv32, r: seq<bv32>)
    requires Ascending(r) && (r != [] ==> Value(y) <= Value(r[0]))
    ensures Ascending([y] + r)
  {
    hide Value;
    forall i, j | 0 <= i < j < |[y] + r|
      ensures Value(([y] + r)[i]) <= Value(([y] + r)[j])
    {
      if i > 0 { assert Value(r[i - 1]) <= Value(r[j - 1]); } else { assert j == 1 || Value(r[0]) <= Value(r[j - 1]); }
    }
  }

  lemma {:induction false} InsertHolds(s: seq<bv32>, x: bv32)
    requires Ascending(s)
    ensures multiset(Insert(s, x)) == multiset(s) + multiset{x}
    ensures Ascending(Insert(s, x))
    ensures Insert(s, x)[0] == if s == [] || Value(x) <= Value(s[0]) then x else s[0]
  {
    hide Value, Ascending;
    if s == [] || Value(x) <= Value(s[0]) {
      AscendingCons(x, s);
    } else {
      RestOf(s);
      InsertHolds(s[1..], x);
      if |s| > 1 { FirstTwo(s); }
      AscendingCons(s[0], Insert(s[1..], x));
    }
  }

  lemma FirstTwo(s: seq<bv32>)
    requires Ascending(s) && |s| > 1
    ensures Value(s[0]) <= Value(s[1])
  {
    hide Value;
  }

  lemma FirstIsLeast(s: seq<bv32>, x: bv32)
    requires Ascending(s) && x in multiset(s)
    ensures s != [] && Value(s[0]) <= Value(x)
  {
    hide Value;
    var i :| 0 <= i < |s| && s[i] == x;
  }

  lemma RestOf(s: seq<bv32>)
    requires s != []
    ensures s[0] in multiset(s) && multiset(s[1..]) == multiset(s) - multiset{s[0]}
    ensures Ascending(s) ==> Ascending(s[1..])
  {
    hide Value;
    assert s == [s[0]] + s[1..];
  }

  lemma SameLength(a: seq<bv32>, b: seq<bv32>)
    requires multiset(a) == multiset(b)
    ensures |a| == |b|
  {
    assert |multiset(a)| == |a| && |multiset(b)| == |b|;
  }

  lemma SameFirst(a: seq<bv32>, b: seq<bv32>)
    requires Ascending(a) && Ascending(b) && multiset(a) == multiset(b) && a != []
    ensures b != [] && a[0] == b[0]
  {
    hide Value, Ascending;
    RestOf(a);
    FirstIsLeast(b, a[0]);
    RestOf(b);
    FirstIsLeast(a, b[0]);
    ValueInjective(a[0], b[0]);
  }

  lemma {:induction false} SortedUnique(a: seq<bv32>, b: seq<bv32>)
    requires Ascending(a) && Ascending(b) && multiset(a) == multiset(b)
    ensures a == b
  {
    hide Value, Ascending;
    SameLength(a, b);
    if a != [] {
      SameFirst(a, b);
      RestOf(a);
      RestOf(b);
      SortedUnique(a[1..], b[1..]);
      assert a == [a[0]] + a[1..] && b == [b[0]] + b[1..];
    }
  }

  /** Adding to the tree is inserting into its list. */
  lemma AddIsInsert(t: Trie, t': Trie, x: bv32)
    requires WellFormed(t) && WellFormed(t') && Added(t, t', x)
    ensures Items(t') == Insert(Items(t), x)
  {
    hide Value, Bit, High, Ones, Sign, Half, WellFormed, Items;
    ItemsAscending(t);
    ItemsAscending(t');
    InsertHolds(Items(t), x);
    SortedUnique(Items(t'), Insert(Items(t), x));
  }

  /** One more round of a take that has taken `d` numbers so far. */
  lemma OneMoreRound(was: seq<bv32>, d: nat, k: nat, m: nat)
    requires d <= |was| && d <= k && m <= k - d
    ensures var now := was[d..]; var n := Min(m, |now|);
      was[..d] + now[..n] == was[..d + n] && now[n..] == was[d + n..]
  {
  }

  /** A take of at most `limit` numbers, in rounds that fit the output buffer. */
  method TakeInRounds(store: Store, amount: nat, buffer: array<bv32>) returns (out: seq<bv32>)
    requires store.Valid() && buffer.Length == OUT_BUFFER && buffer as object != store.heap.smallBlockHeaders
    modifies store, store.heap, store.heap.smallBlockHeaders, buffer
    ensures store.Valid()
    ensures var was := Items(old(store.trie)); var k := Min(amount, |was|);
      out == was[..k] && Items(store.trie) == was[k..]
  {
    hide Store.Valid, Items, Drop, WellFormed, Smallest;
    StoreWellFormed(store);
    out := [];
    var limit := amount;
    ghost var was := Items(store.trie);
    while limit > 0
      invariant store.Valid() && WellFormed(store.trie)
      invariant 0 <= amount - limit <= |was| && 0 <= limit
      invariant out == was[..amount - limit] && Items(store.trie) == was[amount - limit..]
      decreases limit
    {
      ghost var d, t := amount - limit, store.trie;
      var takeMax := if limit < OUT_BUFFER then limit else OUT_BUFFER;
      var taken := store.TakeNumbers(buffer, takeMax);
      StoreWellFormed(store);
      DropItems(t, takeMax);
      SmallestItems(t, takeMax);
      OneMoreRound(was, d, amount, takeMax);
      assert buffer[..taken] == Smallest(t, takeMax);
      out := out + buffer[..taken];
      limit := limit - taken;
      if taken == 0 { break; }
    }
  }

  lemma StoreWellFormed(store: Store)
    requires store.Valid()
    ensures WellFormed(store.trie)
  {
    hide WellFormed, Holds, Allocator.Heap.Valid;
  }

  lemma SmallestItems(t: Trie, k: nat)
    requires WellFormed(t)
    ensures Smallest(t, k) == Items(t)[..Min(k, |Items(t)|)]
  {
    hide WellFormed, Items;
  }

  /** One command. */
  method Execute(store: Store, command: bv32, buffer: array<bv32>, ghost m: Machine) returns (out: seq<bv32>)
    requires store.Valid() && buffer.Length == OUT_BUFFER && buffer as object != store.heap.smallBlockHeaders
    requires WellFormed(store.trie) && Items(store.trie) == m.stored
    modifies store, store.heap, store.heap.smallBlockHeaders, buffer
    ensures store.Valid() && WellFormed(store.trie)
    ensures Step(m, command) == Machine(Items(store.trie), m.out + out)
  {
    hide Store.Valid, Items, WellFormed, Value, Bit, Sign, Added, Insert;
    ghost var was := store.trie;
    if !NonNegative(command) {
      ZeroNotNegative(command);
      var limit := Neg(command);
      out := TakeInRounds(store, if NonNegative(limit) then Value(limit) else 0, buffer);
      StoreWellFormed(store);
    } else {
      out := [];
      store.AddNumber(command);
      StoreWellFormed(store);
      AddIsInsert(was, store.trie, command);
    }
  }

  lemma ZeroNotNegative(w: bv32)
    ensures Sign(w) == 0 || Sign(w) == 1
  {
  }

  /** One read's worth of commands. */
  method ExecuteAll(store: Store, numbers: seq<bv32>, buffer: array<bv32>, ghost m: Machine) returns (out: seq<bv32>)
    requires store.Valid() && buffer.Length == OUT_BUFFER && buffer as object != store.heap.smallBlockHeaders
    requires WellFormed(store.trie) && Items(store.trie) == m.stored
    modifies store, store.heap, store.heap.smallBlockHeaders, buffer
    ensures store.Valid() && WellFormed(store.trie)
    ensures Run(m, numbers) == Machine(Items(store.trie), m.out + out)
  {
    hide Store.Valid, Items, WellFormed, Step;
    out := [];
    for n := 0 to |numbers|
      invariant store.Valid() && WellFormed(store.trie)
      invariant Run(m, numbers[..n]) == Machine(Items(store.trie), m.out + out)
    {
      var more := Execute(store, numbers[n], buffer, Run(m, numbers[..n]));
      assert numbers[..n + 1][..n] == numbers[..n];
      assert m.out + out + more == m.out + (out + more);
      out := out + more;
    }
    assert numbers[..|numbers|] == numbers;
  }

  lemma {:induction false} RunConcat(m: Machine, a: seq<bv32>, b: seq<bv32>)
    ensures Run(m, a + b) == Run(Run(m, a), b)
    decreases |b|
  {
    hide Step;
    if b == [] {
      assert a + b == a;
    } else {
      assert (a + b)[..|a + b| - 1] == a + b[..|b| - 1];
      RunConcat(m, a, b[..|b| - 1]);
    }
  }

  /** The numbers among the commands that are to be stored. */
  function Additions(commands: seq<bv32>): seq<bv32> {
    if commands == [] then []
    else
      var (rest, w) := (Additions(commands[..|commands| - 1]), commands[|commands| - 1]);
      if NonNegative(w) then rest + [w] else rest
  }

  /** A number to be stored is stored and writes nothing; a take moves numbers to the output. */
  lemma StepMoves(m: Machine, w: bv32)
    requires Ascending(m.stored)
    ensures Ascending(Step(m, w).stored)
    ensures NonNegative(w) ==> Step(m, w).out == m.out && multiset(Step(m, w).stored) == multiset(m.stored) + multiset{w}
    ensures !NonNegative(w) ==>
      multiset(Step(m, w).out) + multiset(Step(m, w).stored) == multiset(m.out) + multiset(m.stored)
    ensures m.out <= Step(m, w).out
  {
    hide TakeAmount, NonNegative, Value, Insert;
    if NonNegative(w) {
      InsertHolds(m.stored, w);
    } else {
      var k := Min(TakeAmount(w), |m.stored|);
      assert m.stored == m.stored[..k] + m.stored[k..];
    }
  }

  /** Output and store together hold exactly the numbers added, whatever the commands. */
  lemma {:induction false} NumbersConserved(commands: seq<bv32>)
    ensures var m := Run(Machine([], []), commands);
      Ascending(m.stored) && multiset(m.out) + multiset(m.stored) == multiset(Additions(commands))
    decreases |commands|
  {
    hide Step, Ascending, NonNegative;
    if commands == [] {
      EmptyAscends();
    } else {
      var n := |commands| - 1;
      NumbersConserved(commands[..n]);
      StepMoves(Run(Machine([], []), commands[..n]), commands[n]);
    }
  }

  lemma EmptyAscends()
    ensures Ascending([])
  {
  }

  /** Each command stores at most one number. */
  lemma {:induction false} RunLength(m: Machine, commands: seq<bv32>)
    ensures |Run(m, commands).stored| <= |m.stored| + |commands|
    decreases |commands|
  {
    if commands != [] {
      var n := |commands| - 1;
      RunLength(m, commands[..n]);
      StepLength(Run(m, commands[..n]), commands[n]);
    }
  }

  lemma StepLength(m: Machine, w: bv32)
    ensures |Step(m, w).stored| <= |m.stored| + 1
  {
    hide TakeAmount, NonNegative;
    InsertLength(m.stored, w);
  }

  lemma {:induction false} InsertLength(s: seq<bv32>, x: bv32)
    ensures |Insert(s, x)| == |s| + 1
  {
    hide Value;
    if s != [] { InsertLength(s[1..], x); }
  }

  /** No leaf ever counts more than the commands so far, so no count overflows before 2^31 commands. */
  lemma CountsFit(t: Trie, commands: seq<bv32>)
    requires WellFormed(t) && Items(t) == Run(Machine([], []), commands).stored
    ensures MaxCount(t) <= |commands|
  {
    hide WellFormed, Items, Run, MaxCount;
    MaxCountBound(t);
    RunLength(Machine([], []), commands);
  }

  lemma {:induction false} CommandsUpTo(inputs: seq<seq<bv32>>, n: nat)
    requires n < |inputs| && forall i :: 0 <= i <= n ==> inputs[i] != []
    ensures Commands(inputs[..n + 1]) == Commands(inputs[..n]) + inputs[n]
  {
    if n > 0 {
      assert inputs[..n + 1][1..] == inputs[1..][..n] && inputs[..n][1..] == inputs[1..][..n - 1];
      CommandsUpTo(inputs[1..], n - 1);
    } else {
      assert inputs[..1][1..] == [] && inputs[..0] == [];
    }
  }

  lemma {:induction false} CommandsEnd(inputs: seq<seq<bv32>>, n: nat)
    requires n <= |inputs| && forall i :: 0 <= i < n ==> inputs[i] != []
    requires n == |inputs| || inputs[n] == []
    ensures Commands(inputs) == Commands(inputs[..n])
  {
    if n > 0 {
      assert inputs[..n][1..] == inputs[1..][..n - 1];
      CommandsEnd(inputs[1..], n - 1);
    }
  }

  /** The whole program: every command of every read, then the release of the tree. */
  method Radix(heapStart: int, inputs: seq<seq<bv32>>) returns (out: seq<bv32>, heap: Allocator.Heap)
    requires 0 < heapStart && heapStart % Allocator.WORD == 0
    ensures out == Run(Machine([], []), Commands(inputs)).out
    ensures heap.Valid() && heap.blocks == map[]
  {
    hide Store.Valid, Items, WellFormed, Step, Run, Commands, Allocator.Heap.Valid, Rep, Distinct, Addrs;
    var store := new Store(heapStart);
    var buffer := new bv32[OUT_BUFFER];
    StartEmpty(store);
    out := [];
    var n := 0;
    while n < |inputs| && inputs[n] != []
      invariant 0 <= n <= |inputs| && (forall i :: 0 <= i < n ==> inputs[i] != [])
      invariant fresh(store) && fresh(store.heap) && fresh(store.heap.smallBlockHeaders) && fresh(buffer)
      invariant store.Valid() && WellFormed(store.trie)
      invariant Run(Machine([], []), Commands(inputs[..n])) == Machine(Items(store.trie), out)
    {
      ghost var m := Run(Machine([], []), Commands(inputs[..n]));
      var more := ExecuteAll(store, inputs[n], buffer, m);
      RunConcat(Machine([], []), Commands(inputs[..n]), inputs[n]);
      CommandsUpTo(inputs, n);
      out := out + more;
      n := n + 1;
    }
    CommandsEnd(inputs, n);
    heap := store.heap;
    AllBlocks(store);
    store.ReleaseTree(store.tree, store.trie);
  }

  lemma StartEmpty(store: Store)
    requires store.Valid() && store.trie == Empty
    ensures WellFormed(store.trie) && Items(store.trie) == []
    ensures Run(Machine([], []), Commands([])) == Machine([], [])
  {
  }

  /** The live blocks are exactly the nodes of the tree. */
  lemma AllBlocks(store: Store)
    requires store.Valid()
    ensures store.heap.Valid() && store.heap.blocks.Keys == Addrs(store.trie)
    ensures Rep(store.heap.blocks, store.tree, store.trie) && Distinct(store.trie) && WellFormed(store.trie)
  {
    hide WellFormed, Allocator.Heap.Valid;
  }
}
