/** The counting part of the threaded histogram program, as steps of its workers: each gets files from
    outside, counts into its own histogram, and merges it into the global one, entry by entry, under a
    mutex.  Reading and writing a global entry are separate steps. */
module HistogramWorkers {
  import opened Histogram
  import opened Options

  /** The statement a worker executes next. */
  datatype Pc = Fetch | Read | Lock | Load | Store | Clear | Unlock | Done

  /** A worker: its histogram, the unread bytes of its file, the bytes read of it, and the merge in progress. */
  datatype Worker = Worker(
    pc: Pc, local: seq<int>, left: seq<bv8>, i: nat, k: nat, loaded: int, closing: bool)

  /** What a worker that asks for a file is told. */
  datatype Fetched = Waiting | Got(file: File) | NoMore

  /** The global histogram, its mutex, the workers, the bytes read by anyone, and the files given to them. */
  datatype State = State(
    global: seq<int>, lock: Option<nat>, workers: seq<Worker>, consumed: seq<bv8>, given: seq<File>)

  function Zeros(): seq<int> { [0, 0, 0, 0, 0, 0, 0, 0] }

  ghost predicate Initial(s: State) {
    && s.global == Zeros() && s.lock == None && s.consumed == [] && s.given == []
    && forall w :: 0 <= w < |s.workers| ==> s.workers[w] == Worker(Fetch, Zeros(), [], 0, 0, 0, false)
  }

  function Counted(local: seq<int>, c: bv8): seq<int>
    requires |local| == 8
  {
    seq(8, k requires 0 <= k < 8 => local[k] + Bit(c, k))
  }

  predicate Enabled(s: State, w: nat) {
    w < |s.workers| && s.workers[w].pc != Done && (s.workers[w].pc == Lock ==> s.lock == None)
  }

  predicate InBounds(s: State, w: nat) {
    w < |s.workers| && |s.global| == 8 && WorkerInBounds(s.workers[w])
  }

  predicate WorkerInBounds(x: Worker) {
    |x.local| == 8 && (x.pc in {Load, Store, Clear} ==> x.k < 8)
  }

  /** What one step does to the worker. */
  function Next(fetched: Fetched, global: seq<int>, x: Worker): Worker
    requires |global| == 8 && WorkerInBounds(x)
  {
    match x.pc
    case Fetch =>
      (match fetched
       case Waiting => x
       case NoMore => x.(pc := Done)
       case Got(None) => x
       case Got(Some(bytes)) => Worker(Read, Zeros(), bytes, 0, 0, 0, false))
    case Read =>
      if x.left == [] then x.(pc := Lock, closing := true)
      else x.(local := Counted(x.local, x.left[0]), left := x.left[1..], i := x.i + 1,
              pc := if (x.i + 1) % MERGE_EVERY == 0 then Lock else Read)
    case Lock => x.(pc := Load, k := 0)
    case Load => x.(pc := Store, loaded := global[x.k])
    case Store => x.(pc := Clear)
    case Clear => x.(local := x.local[x.k := 0], k := x.k + 1, pc := if x.k + 1 == 8 then Unlock else Load)
    case Unlock => x.(pc := if x.closing then Fetch else Read)
    case Done => x
  }

  function Advance(s: State, w: nat, fetched: Fetched): Worker
    requires InBounds(s, w)
  {
    Next(fetched, s.global, s.workers[w])
  }

  /** The state after one step of worker `w`. */
  function Step(s: State, w: nat, fetched: Fetched): State
    requires InBounds(s, w)
  {
    var x := s.workers[w];
    var s' := s.(workers := s.workers[w := Advance(s, w, fetched)]);
    match x.pc
    case Fetch => if fetched.Got? then s'.(given := s.given + [fetched.file]) else s'
    case Read => if x.left != [] then s'.(consumed := s.consumed + [x.left[0]]) else s'
    case Lock => s'.(lock := Some(w))
    case Store => s'.(global := s.global[x.k := x.loaded + x.local[x.k]])
    case Unlock => s'.(lock := None)
    case _ => s'
  }

  // ----- sums over the workers -----

  /** What a worker still has to add to entry `k`: an entry stored but not yet cleared is already added. */
  function Kept(x: Worker, k: nat): int
    requires k < 8 && |x.local| == 8
  {
    if x.pc == Clear && x.k == k then 0 else x.local[k]
  }

  predicate Sized(workers: seq<Worker>) {
    forall w :: 0 <= w < |workers| ==> |workers[w].local| == 8
  }

  function TotalKept(workers: seq<Worker>, k: nat): int
    requires k < 8 && Sized(workers)
  {
    if workers == [] then 0 else Kept(workers[0], k) + TotalKept(workers[1..], k)
  }

  function TotalLeft(workers: seq<Worker>, k: nat): int
    requires k < 8
  {
    if workers == [] then 0 else Ones(workers[0].left, k) + TotalLeft(workers[1..], k)
  }

  lemma {:induction false} TotalsUpdate(workers: seq<Worker>, w: nat, x: Worker, k: nat)
    requires k < 8 && Sized(workers) && w < |workers| && |x.local| == 8
    ensures TotalKept(workers[w := x], k) == TotalKept(workers, k) - Kept(workers[w], k) + Kept(x, k)
    ensures TotalLeft(workers[w := x], k) == TotalLeft(workers, k) - Ones(workers[w].left, k) + Ones(x.left, k)
  {
    if w == 0 {
      assert workers[0 := x][1..] == workers[1..];
    } else {
      assert workers[w := x][1..] == workers[1..][w - 1 := x];
      TotalsUpdate(workers[1..], w - 1, x, k);
    }
  }

  lemma {:induction false} TotalsZero(workers: seq<Worker>, k: nat)
    requires k < 8 && Sized(workers)
    requires forall w :: 0 <= w < |workers| ==> Kept(workers[w], k) == 0 && workers[w].left == []
    ensures TotalKept(workers, k) == 0 && TotalLeft(workers, k) == 0
  {
    if workers != [] { TotalsZero(workers[1..], k); }
  }

  // ----- the invariant -----

  predicate HasLock(pc: Pc) { pc == Load || pc == Store || pc == Clear || pc == Unlock }

  ghost predicate WorkerInv(global: seq<int>, x: Worker) {
    && |x.local| == 8 && |global| == 8 && x.k <= 8
    && (x.pc in {Load, Store, Clear} ==> x.k < 8)
    && (x.pc == Store ==> x.loaded == global[x.k])
    && (HasLock(x.pc) ==> forall j :: 0 <= j < x.k && j < 8 ==> x.local[j] == 0)
    && (x.pc == Unlock ==> x.k == 8)
    && (x.pc in {Fetch, Done} ==> x.left == [] && forall j :: 0 <= j < 8 ==> x.local[j] == 0)
    && (x.closing ==> x.left == [])
    && (forall j :: 0 <= j < 8 ==> 0 <= x.local[j] <= if x.pc == Read then x.i % MERGE_EVERY else MERGE_EVERY)
  }

  ghost predicate Inv(s: State) {
    && |s.global| == 8 && Sized(s.workers)
    && (forall w :: 0 <= w < |s.workers| ==> WorkerInv(s.global, s.workers[w]))
    && (forall w :: 0 <= w < |s.workers| ==> (HasLock(s.workers[w].pc) <==> s.lock == Some(w)))
    && (s.lock.Some? ==> s.lock.value < |s.workers|)
    && forall k :: 0 <= k < 8 ==> Balanced(s, k)
  }

  /** Nothing is lost: global plus local counts are the bits read, and those plus the unread ones are all
      that were given. */
  ghost predicate Balanced(s: State, k: nat)
    requires k < 8 && |s.global| == 8 && Sized(s.workers)
  {
    && s.global[k] + TotalKept(s.workers, k) == Ones(s.consumed, k)
    && Ones(s.consumed, k) + TotalLeft(s.workers, k) == Ones(AllBytes(s.given), k)
  }

  lemma InitialInv(s: State)
    requires Initial(s)
    ensures Inv(s)
  {
    forall k | 0 <= k < 8
      ensures Balanced(s, k)
    {
      TotalsZero(s.workers, k);
    }
  }

  lemma StepInBounds(s: State, w: nat)
    requires Inv(s) && w < |s.workers|
    ensures InBounds(s, w)
  {
    hide Balanced;
    assert WorkerInv(s.global, s.workers[w]);
  }

  /** The worker that moves keeps its own invariant. */
  lemma OwnInv(s: State, w: nat, fetched: Fetched)
    requires Enabled(s, w) && InBounds(s, w) && WorkerInv(s.global, s.workers[w])
    ensures WorkerInv(Step(s, w, fetched).global, Advance(s, w, fetched))
  {
  }

  /** The other workers keep theirs: only the holder of the mutex changes the global histogram. */
  lemma OtherInv(s: State, w: nat, fetched: Fetched, u: nat)
    requires Inv(s) && Enabled(s, w) && InBounds(s, w) && u < |s.workers| && u != w
    ensures WorkerInv(Step(s, w, fetched).global, s.workers[u])
  {
    hide Balanced, Advance;
    assert WorkerInv(s.global, s.workers[u]);
  }

  lemma LockInv(s: State, w: nat, fetched: Fetched)
    requires Inv(s) && Enabled(s, w) && InBounds(s, w)
    ensures var s' := Step(s, w, fetched);
      && (forall u :: 0 <= u < |s'.workers| ==> (HasLock(s'.workers[u].pc) <==> s'.lock == Some(u)))
      && (s'.lock.Some? ==> s'.lock.value < |s'.workers|)
  {
    hide Balanced, WorkerInv;
  }

  /** Counts move between a local histogram and the global one, and new ones come from the byte read. */
  lemma CountsMove(s: State, w: nat, fetched: Fetched, k: nat)
    requires Enabled(s, w) && InBounds(s, w) && WorkerInv(s.global, s.workers[w]) && k < 8
    ensures var (s', x, x') := (Step(s, w, fetched), s.workers[w], Advance(s, w, fetched));
      |x'.local| == 8 && |s'.global| == 8 &&
      s'.global[k] + Kept(x', k) - Ones(s'.consumed, k) == s.global[k] + Kept(x, k) - Ones(s.consumed, k)
  {
    hide Ones, Bit;
    var x := s.workers[w];
    if x.pc == Read && x.left != [] {
      OnesSnoc(s.consumed, x.left[0], k);
    }
  }

  /** Bytes move from the files given to the workers, and from there to the bytes read. */
  lemma BytesMove(s: State, w: nat, fetched: Fetched, k: nat)
    requires Enabled(s, w) && InBounds(s, w) && WorkerInv(s.global, s.workers[w]) && k < 8
    ensures var (s', x, x') := (Step(s, w, fetched), s.workers[w], Advance(s, w, fetched));
      Ones(s'.consumed, k) + Ones(x'.left, k) - Ones(AllBytes(s'.given), k)
        == Ones(s.consumed, k) + Ones(x.left, k) - Ones(AllBytes(s.given), k)
  {
    hide AllBytes, Ones, Bit;
    var x := s.workers[w];
    NoOnes(k);
    if x.pc == Read && x.left != [] {
      OnesSnoc(s.consumed, x.left[0], k);
      OnesFirst(x.left, k);
    }
    if x.pc == Fetch && fetched.Got? {
      OneMoreFile(s.given, fetched.file, k);
    }
  }

  lemma NoOnes(k: nat)
    requires k < 8
    ensures Ones([], k) == 0
  {
  }

  lemma OneMoreFile(files: seq<File>, file: File, k: nat)
    requires k < 8
    ensures Ones(AllBytes(files + [file]), k) == Ones(AllBytes(files), k) + Ones(Bytes(file), k)
  {
    hide Ones, AllBytes;
    var all := files + [file];
    assert all[..|files|] == files && all[..|files| + 1] == all;
    TakeFile(all, |files|, k);
  }

  lemma StepWorkers(s: State, w: nat, fetched: Fetched)
    requires Inv(s) && Enabled(s, w) && InBounds(s, w)
    ensures var s' := Step(s, w, fetched);
      s'.workers == s.workers[w := Advance(s, w, fetched)] && Sized(s'.workers) && |s'.global| == 8
  {
    hide Advance, Balanced;
    OwnInv(s, w, fetched);
  }

  lemma StepBalanced(s: State, w: nat, fetched: Fetched, k: nat)
    requires Inv(s) && Enabled(s, w) && InBounds(s, w) && k < 8
    ensures var s' := Step(s, w, fetched); |s'.global| == 8 && Sized(s'.workers) && Balanced(s', k)
  {
    hide Step, Advance, WorkerInv, TotalKept, TotalLeft, Kept, Ones, AllBytes;
    StepWorkers(s, w, fetched);
    CountsMove(s, w, fetched, k);
    BytesMove(s, w, fetched, k);
    TotalsUpdate(s.workers, w, Advance(s, w, fetched), k);
    assert Balanced(s, k);
  }

  /** Every step of every worker keeps the invariant, whatever it is given. */
  lemma StepInv(s: State, w: nat, fetched: Fetched)
    requires Inv(s) && Enabled(s, w)
    ensures InBounds(s, w) && Inv(Step(s, w, fetched))
  {
    hide Step, Advance, WorkerInv, Balanced, InBounds;
    StepInBounds(s, w);
    var s' := Step(s, w, fetched);
    StepWorkers(s, w, fetched);
    OwnInv(s, w, fetched);
    LockInv(s, w, fetched);
    forall k | 0 <= k < 8
      ensures Balanced(s', k)
    {
      StepBalanced(s, w, fetched, k);
    }
    forall u | 0 <= u < |s.workers| && u != w
      ensures WorkerInv(s'.global, s.workers[u])
    {
      OtherInv(s, w, fetched, u);
    }
  }

  /** Once all workers are done, the global histogram is that of all files they were given. */
  lemma AllDone(s: State)
    requires Inv(s) && forall w :: 0 <= w < |s.workers| ==> s.workers[w].pc == Done
    ensures |s.global| == 8 && forall k :: 0 <= k < 8 ==> s.global[k] == Ones(AllBytes(s.given), k)
  {
    hide TotalKept, TotalLeft, Ones, AllBytes;
    forall k | 0 <= k < 8
      ensures s.global[k] == Ones(AllBytes(s.given), k)
    {
      assert Balanced(s, k);
      forall w | 0 <= w < |s.workers|
        ensures Kept(s.workers[w], k) == 0 && s.workers[w].left == []
      {
        assert WorkerInv(s.global, s.workers[w]);
      }
      TotalsZero(s.workers, k);
    }
  }

  // ----- what a worker comes to -----

  /** A bound on the steps a worker takes until it is done with its file: less than thirty for a merge, were
      there one after every byte. */
  function StepsLeft(x: Worker): nat
    requires x.k <= 8
  {
    var reading := if x.closing then 0 else 30 * |x.left| + 30;
    match x.pc
    case Fetch => 0
    case Done => 0
    case Read => 30 * |x.left| + 30
    case Lock => reading + 29
    case Load => reading + 28 - 3 * x.k
    case Store => reading + 27 - 3 * x.k
    case Clear => reading + 26 - 3 * x.k
    case Unlock => reading + 4
  }

  /** Every step of a worker with a file brings it closer to the end of the file; it then asks for the next
      one, with nothing left to merge.  A worker that asks stops exactly when there is none. */
  lemma WorkerProgress(global: seq<int>, x: Worker, fetched: Fetched)
    requires WorkerInv(global, x)
    ensures var x' := Next(fetched, global, x);
      && x'.k <= 8
      && (x.pc != Fetch && x.pc != Done ==> StepsLeft(x') < StepsLeft(x) && x'.pc != Done)
      && (x.pc == Fetch ==> (x'.pc == Done <==> fetched.NoMore?))
      && (x.pc == Fetch ==> (x'.pc == Read <==> fetched.Got? && fetched.file.Some?))
  {
  }

  /** No worker keeps more than the counts of a hundred thousand bytes to itself. */
  lemma {:induction false} KeptBound(global: seq<int>, workers: seq<Worker>, k: nat)
    requires k < 8 && Sized(workers) && forall w :: 0 <= w < |workers| ==> WorkerInv(global, workers[w])
    ensures 0 <= TotalKept(workers, k) <= 100000 * |workers|
  {
    hide WorkerInv;
    if workers != [] {
      KeptOfOne(global, workers[0], k);
      KeptBound(global, workers[1..], k);
    }
  }

  lemma KeptOfOne(global: seq<int>, x: Worker, k: nat)
    requires k < 8 && WorkerInv(global, x)
    ensures |x.local| == 8 && 0 <= Kept(x, k) <= 100000
  {
  }

  // ----- the workers in place -----

  /** A worker thread with its variables. */
  class Thread {
    var pc: Pc
    var local: array<int>
    var left: seq<bv8>
    var i: nat
    var k: nat
    var loaded: int
    var closing: bool

    ghost function View(): Worker
      reads this, local
    {
      Worker(pc, local[..], left, i, k, loaded, closing)
    }

    constructor ()
      ensures View() == Worker(Fetch, Zeros(), [], 0, 0, 0, false) && fresh(local)
    {
      pc, left, i, k, loaded, closing := Fetch, [], 0, 0, 0, false;
      local := new int[8](_ => 0);
    }

    method ReadByte(ghost global: seq<int>)
      requires local.Length == 8 && |global| == 8 && pc == Read && left != []
      modifies this`pc, this`left, this`i, local
      ensures View() == Next(Waiting, global, old(View()))
    {
      var c := left[0];
      UpdateHistogram(local, c);
      left, i := left[1..], i + 1;
      pc := if i % MERGE_EVERY == 0 then Lock else Read;
    }

    /** The thread's part of a step. */
    method Advance(fetched: Fetched, global: array<int>)
      requires global.Length == 8 && global != local && WorkerInBounds(View())
      modifies this, local
      ensures local == old(local) || fresh(local)
      ensures View() == Next(fetched, global[..], old(View()))
    {
      match pc
      case Fetch =>
        if fetched.NoMore? {
          pc := Done;
        } else if fetched.Got? && fetched.file.Some? {
          local := new int[8](_ => 0);
          pc, left, i, k, loaded, closing := Read, fetched.file.value, 0, 0, 0, false;
        }
      case Read =>
        if left == [] {
          pc, closing := Lock, true;
        } else {
          ReadByte(global[..]);
        }
      case Lock => pc, k := Load, 0;
      case Load => pc, loaded := Store, global[k];
      case Store => pc := Clear;
      case Clear =>
        local[k] := 0;
        k := k + 1;
        pc := if k == 8 then Unlock else Load;
      case Unlock => pc := if closing then Fetch else Read;
      case Done =>
    }
  }

  ghost function Views(threads: seq<Thread>): (workers: seq<Worker>)
    reads threads, set t | t in threads :: t.local
    ensures |workers| == |threads| && forall w :: 0 <= w < |workers| ==> workers[w] == threads[w].View()
  {
    if threads == [] then [] else Views(threads[..|threads| - 1]) + [threads[|threads| - 1].View()]
  }

  /** No two threads share a histogram. */
  ghost predicate Separate(threads: seq<Thread>, global: array<int>)
    reads threads
  {
    && (forall t :: t in threads ==> t.local != global)
    && forall u, w :: 0 <= u < w < |threads| ==> threads[u] != threads[w] && threads[u].local != threads[w].local
  }

  method StartThreads(count: nat, global: array<int>) returns (threads: seq<Thread>)
    ensures |threads| == count && Separate(threads, global)
    ensures forall t :: t in threads ==> fresh(t) && fresh(t.local) && t.View() == Worker(Fetch, Zeros(), [], 0, 0, 0, false)
  {
    threads := [];
    for n := 0 to count
      invariant |threads| == n && Separate(threads, global)
      invariant forall t :: t in threads ==> fresh(t) && fresh(t.local) && allocated(t.local)
      invariant forall t :: t in threads ==> t.View() == Worker(Fetch, Zeros(), [], 0, 0, 0, false)
    {
      var t := new Thread();
      threads := threads + [t];
    }
  }

  lemma NewState(s: State)
    requires s.global == Zeros() && s.lock == None && s.consumed == [] && s.given == []
    requires forall w :: 0 <= w < |s.workers| ==> s.workers[w] == Worker(Fetch, Zeros(), [], 0, 0, 0, false)
    ensures Initial(s)
  {
  }

  /** The global histogram, its mutex and the threads. */
  class Counters {
    const global: array<int>
    const threads: seq<Thread>
    var lock: Option<nat>
    ghost var consumed: seq<bv8>
    ghost var given: seq<File>

    ghost predicate Valid()
      reads threads
    {
      global.Length == 8 && Separate(threads, global)
    }

    ghost function View(): State
      reads this, global, threads, set t | t in threads :: t.local
    {
      State(global[..], lock, Views(threads), consumed, given)
    }

    constructor (count: nat)
      ensures |threads| == count && Valid() && Initial(View())
      ensures fresh(global) && forall t :: t in threads ==> fresh(t) && fresh(t.local)
    {
      var shared := new int[8](_ => 0);
      var started := StartThreads(count, shared);
      global, threads := shared, started;
      lock, consumed, given := None, [], [];
      new;
      hide Views, Separate, Initial, Thread.View;
      assert global[..] == Zeros();
      NewState(View());
    }

    /** The shared part of a step of thread `w`. */
    method Share(w: nat, fetched: Fetched)
      requires Valid() && w < |threads| && InBounds(View(), w)
      modifies this`lock, this`consumed, this`given, global
      ensures View() == Step(old(View()), w, fetched).(workers := old(View()).workers)
    {
      hide Next, Advance;
      assert View().workers[w] == threads[w].View();
      var x := threads[w];
      match x.pc
      case Fetch => if fetched.Got? { given := given + [fetched.file]; }
      case Read => if x.left != [] { consumed := consumed + [x.left[0]]; }
      case Lock => lock := Some(w);
      case Store => global[x.k] := x.loaded + x.local[x.k];
      case Unlock => lock := None;
      case _ =>
    }

    /** The thread's own part; the other threads and the shared variables stay as they are. */
    method MoveThread(w: nat, fetched: Fetched)
      requires Valid() && w < |threads| && WorkerInBounds(threads[w].View())
      modifies threads[w], threads[w].local
      ensures Valid() && global[..] == old(global[..])
      ensures forall u :: 0 <= u < |threads| && u != w ==> threads[u].local == old(threads[u].local)
      ensures threads[w].local == old(threads[w].local) || fresh(threads[w].local)
      ensures Views(threads) == old(Views(threads))[w := Next(fetched, global[..], old(threads[w].View()))]
    {
      hide Next, WorkerInBounds;
      threads[w].Advance(fetched, global);
      forall u | 0 <= u < |threads| && u != w
        ensures threads[u].View() == old(threads[u].View())
      {
        assert threads[u] != threads[w] && threads[u].local != old(threads[w].local) && threads[u].local != global;
      }
    }

    /** One step of thread `w`, in place. */
    method StepThread(w: nat, fetched: Fetched)
      requires Valid() && Inv(View()) && Enabled(View(), w)
      modifies this`lock, this`consumed, this`given, global, threads[w], threads[w].local
      ensures Valid() && Inv(View()) && InBounds(old(View()), w) && View() == Step(old(View()), w, fetched)
      ensures forall u :: 0 <= u < |threads| && u != w ==> threads[u].local == old(threads[u].local)
      ensures threads[w].local == old(threads[w].local) || fresh(threads[w].local)
    {
      hide Inv, Next, Step, Enabled, InBounds, Advance;
      ghost var s := View();
      EnabledWorker(s, w);
      StepInv(s, w, fetched);
      SharedKept(s, w, fetched);
      Share(w, fetched);
      MoveThread(w, fetched);
      assert View() == Step(s, w, fetched);
    }
  }

  lemma EnabledWorker(s: State, w: nat)
    requires Enabled(s, w)
    ensures w < |s.workers|
  {
  }

  /** A thread that looks at the global histogram leaves it alone. */
  lemma SharedKept(s: State, w: nat, fetched: Fetched)
    requires InBounds(s, w)
    ensures w < |s.workers| && WorkerInBounds(s.workers[w]) && |Step(s, w, fetched).global| == 8
    ensures Next(fetched, Step(s, w, fetched).global, s.workers[w]) == Advance(s, w, fetched)
    ensures Step(s, w, fetched).workers == s.workers[w := Advance(s, w, fetched)]
  {
  }
}
