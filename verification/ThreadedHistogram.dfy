/** The threaded histogram program: the main thread pushes paths to the job queue and destroys it, the
    workers pop paths from it, statement by statement, and count the files. */
module ThreadedHistogram {
  import opened Histogram
  import opened Options
  import H = HistogramWorkers
  import Q = JobQueue

  /** The paths to push, and what each path leads to. */
  datatype Input = Input(paths: seq<Q.Job>, disk: Q.Job -> File)

  /** The counting part, the queue, and how many pushes of the main thread have returned.  Worker `w` is
      thread `w` of the queue, and the main thread is the one after the workers. */
  datatype State = State(count: H.State, queue: Q.State, sent: nat)
  {
    function Main(): nat { |count.workers| }
  }

  ghost predicate Initial(s: State) {
    H.Initial(s.count) && Q.Initial(s.queue) && s.sent == 0
  }

  /** What a worker learns from the next statement of its pop. */
  function Learned(input: Input, pc: Q.Pc): H.Fetched {
    match pc
    case PopUnlock(Some(path)) => H.Got(input.disk(path))
    case PopUnlock(None) => H.NoMore
    case PopGiveUp => H.NoMore
    case _ => H.Waiting
  }

  /** The next call of the main thread. */
  function MainCall(input: Input, sent: nat): Q.Call {
    if sent < |input.paths| then Q.Push(input.paths[sent]) else Q.Destroy
  }

  predicate Fetching(s: State, t: nat) {
    t < |s.count.workers| && s.count.workers[t].pc == H.Fetch
  }

  /** The call that thread `t` is in or starts. */
  function CallOf(input: Input, s: State, t: nat): Q.Call {
    if t < s.Main() then Q.Pop else MainCall(input, s.sent)
  }

  predicate Enabled(s: State, t: nat) {
    if t < s.Main() then H.Enabled(s.count, t) && (Fetching(s, t) ==> Q.Ready(s.queue, t))
    else t == s.Main() && Q.Ready(s.queue, t)
  }

  predicate InBounds(s: State, t: nat) {
    && (t < s.Main() ==> H.InBounds(s.count, t))
    && (t == s.Main() || Fetching(s, t) ==> Q.InBounds(s.queue.queue))
  }

  /** The state after one step of thread `t`. */
  function Step(input: Input, s: State, t: nat): State
    requires t <= s.Main() && InBounds(s, t)
  {
    var pc := s.queue.Pc(t);
    if t == s.Main() then
      State(s.count, Q.Step(s.queue, t, CallOf(input, s, t)), s.sent + if pc.PushUnlock? || pc.PushRefused? then 1 else 0)
    else if Fetching(s, t) then
      State(H.Step(s.count, t, Learned(input, pc)), Q.Step(s.queue, t, CallOf(input, s, t)), s.sent)
    else
      State(H.Step(s.count, t, H.Waiting), s.queue, s.sent)
  }

  // ----- the invariant -----

  /** The main thread is in a push, in destroy, or between calls; workers only pop, and only when they fetch. */
  ghost predicate PlacesInv(s: State) {
    && (forall t :: t in s.queue.threads ==> t <= s.Main())
    && !Q.InPop(s.queue.Pc(s.Main()))
    && forall w :: 0 <= w < s.Main() ==>
      && (Q.InPop(s.queue.Pc(w)) || s.queue.Pc(w).Idle?)
      && (s.count.workers[w].pc != H.Fetch ==> s.queue.Pc(w).Idle?)
  }

  /** The jobs pushed are the paths sent so far, and the one just stored; destroy comes after the last. */
  ghost predicate MainInv(input: Input, sent: nat, pushed: seq<Q.Job>, called: bool, pc: Q.Pc) {
    && sent <= |input.paths|
    && (Q.InPush(pc) ==> sent < |input.paths| && (Q.Stored(pc) || Q.Pushing(pc, input.paths[sent])))
    && pushed == input.paths[..if Q.Stored(pc) && sent < |input.paths| then sent + 1 else sent]
    && (called <==> Q.InDestroy(pc))
    && (called ==> sent == |input.paths|)
  }

  /** The files given to workers are those of the jobs that pops have returned. */
  ghost predicate GivenInv(input: Input, s: State) {
    s.count.given == FilesOf(input, Q.Jobs(s.queue.returned))
  }

  function FilesOf(input: Input, paths: seq<Q.Job>): (files: seq<File>)
    ensures |files| == |paths|
  {
    seq(|paths|, i requires 0 <= i < |paths| => input.disk(paths[i]))
  }

  /** A worker is done only when nothing is left to pop. */
  ghost predicate DoneInv(s: State) {
    (exists w :: 0 <= w < s.Main() && s.count.workers[w].pc == H.Done) ==> Q.Drained(s.queue)
  }

  ghost predicate Inv(input: Input, s: State) {
    && H.Inv(s.count) && Q.Inv(s.queue) && PlacesInv(s) && GivenInv(input, s) && DoneInv(s)
    && MainInv(input, s.sent, s.queue.queue.pushed, s.queue.called, s.queue.Pc(s.Main()))
  }

  lemma InitialInv(input: Input, s: State)
    requires Initial(s)
    ensures Inv(input, s)
  {
    hide H.Inv, Q.Inv;
    H.InitialInv(s.count);
    Q.InitialInv(s.queue);
  }

  // ----- the main thread -----

  /** The main thread keeps to the order of calls that the queue asks for. */
  lemma MainAllowed(input: Input, s: State)
    requires PlacesInv(s) && Q.Inv(s.queue)
    requires MainInv(input, s.sent, s.queue.queue.pushed, s.queue.called, s.queue.Pc(s.Main()))
    ensures Q.Allowed(s.queue, s.Main(), CallOf(input, s, s.Main()))
  {
    hide Q.Inv;
    var n := s.Main();
    forall u | u in s.queue.threads && s.queue.Pc(n).Idle?
      ensures !Q.InPush(s.queue.threads[u])
    {
      if u < n { assert Q.InPop(s.queue.Pc(u)) || s.queue.Pc(u).Idle?; }
    }
  }

  lemma MainPushes(input: Input, q: Q.Fields, pc: Q.Pc, sent: nat, call: Q.Call)
    requires Q.InBounds(q) && Q.InPush(pc) && !q.flag && MainInv(input, sent, q.pushed, false, pc)
    ensures var (q', pc') := Q.Next(q, pc, call);
      MainInv(input, if pc.PushUnlock? then sent + 1 else sent, q'.pushed, false, pc')
  {
    hide Q.PushNext;
    var job := input.paths[sent];
    Q.PushProgress(q, pc, job);
    PlacesOfPush(pc, job);
    var pc' := Q.PushNext(q, pc).1;
    PlacesOfPush(pc', job);
    assert input.paths[..sent + 1] == input.paths[..sent] + [job];
  }

  lemma PlacesOfPush(pc: Q.Pc, job: Q.Job)
    ensures Q.Stored(pc) || Q.Pushing(pc, job) ==> Q.InPush(pc) && !Q.InDestroy(pc) && !(Q.Stored(pc) && Q.Pushing(pc, job))
    ensures pc.Idle? ==> !Q.InPush(pc) && !Q.InDestroy(pc) && !Q.Stored(pc)
    ensures pc.PushUnlock? ==> Q.Stored(pc)
  {
  }

  lemma MainMoves(input: Input, q: Q.Fields, pc: Q.Pc, sent: nat, called: bool, call: Q.Call)
    requires Q.InBounds(q) && !pc.PushRefused? && !Q.InPop(pc) && (q.flag ==> called)
    requires MainInv(input, sent, q.pushed, called, pc) && call == MainCall(input, sent)
    ensures var (q', pc') := Q.Next(q, pc, call);
      && MainInv(input, if pc.PushUnlock? then sent + 1 else sent, q'.pushed, called || (pc.Idle? && call.Destroy?), pc')
      && !Q.InPop(pc')
  {
    hide Q.PushNext, Q.DestroyNext, Q.PopNext;
    Q.StaysInCall(q, pc, call);
    if Q.InPush(pc) {
      MainPushes(input, q, pc, sent, call);
    } else {
      Q.OnlyPushPushes(q, pc, call);
    }
  }

  lemma PlacesKept(s: State, s': State, t: nat)
    requires PlacesInv(s) && t <= s.Main() && s'.queue.threads == s.queue.threads[t := s'.queue.Pc(t)]
    requires |s'.count.workers| == |s.count.workers|
    requires forall u :: 0 <= u < s.Main() && u != t ==> s'.count.workers[u] == s.count.workers[u]
    requires if t == s.Main() then !Q.InPop(s'.queue.Pc(t))
      else (Q.InPop(s'.queue.Pc(t)) || s'.queue.Pc(t).Idle?) && (s'.count.workers[t].pc != H.Fetch ==> s'.queue.Pc(t).Idle?)
    ensures PlacesInv(s')
  {
    hide Q.InPop;
    assert t != s.Main() ==> s'.queue.Pc(s.Main()) == s.queue.Pc(s.Main());
    forall w | 0 <= w < s.Main()
      ensures (Q.InPop(s'.queue.Pc(w)) || s'.queue.Pc(w).Idle?) && (s'.count.workers[w].pc != H.Fetch ==> s'.queue.Pc(w).Idle?)
    {
      if w != t { assert s'.queue.Pc(w) == s.queue.Pc(w); }
    }
  }

  lemma QueueFacts(s: Q.State, t: nat)
    requires Q.Inv(s)
    ensures Q.InBounds(s.queue) && !s.Pc(t).PushRefused? && (s.queue.flag ==> s.called)
  {
    hide Q.RingInv, Q.TestInv, Q.CountInv, Q.HandsInv;
    Q.InvBounds(s);
    Q.OwnPc(s, t);
  }

  /** A step of the main thread. */
  lemma StepMain(input: Input, s: State)
    requires Inv(input, s) && Enabled(s, s.Main())
    ensures InBounds(s, s.Main()) && Inv(input, Step(input, s, s.Main()))
  {
    hide Q.Inv, H.Inv, H.InBounds, H.Enabled, Q.Ready, Q.Allowed, Q.Next, Q.InBounds, Q.InPop, Q.LockAfter, MainInv, FilesOf, Q.Jobs, Q.Drained;
    var n := s.Main();
    var pc, call := s.queue.Pc(n), CallOf(input, s, n);
    QueueFacts(s.queue, n);
    MainAllowed(input, s);
    Q.StepInv(s.queue, n, call);
    MainMoves(input, s.queue.queue, pc, s.sent, s.queue.called, call);
    NoReturn(n, pc);
    assert s.queue.returned + [] == s.queue.returned;
    if Q.Drained(s.queue) { Q.DrainedStays(s.queue, n, call); }
    PlacesKept(s, Step(input, s, n), n);
  }

  lemma NoReturn(t: nat, pc: Q.Pc)
    requires !Q.InPop(pc)
    ensures Q.Returned(t, pc) == []
  {
  }

  // ----- the workers -----

  /** A step of a worker that counts. */
  lemma StepCounting(input: Input, s: State, w: nat)
    requires Inv(input, s) && Enabled(s, w) && w < s.Main() && !Fetching(s, w)
    ensures InBounds(s, w) && Inv(input, Step(input, s, w))
  {
    hide Q.Inv, H.Inv, H.InBounds, Q.Ready, Q.Next, MainInv, FilesOf, Q.Jobs, Q.Drained, Q.InPop;
    H.StepInv(s.count, w, H.Waiting);
    CountingWorker(s.count, w);
  }

  lemma CountingWorker(c: H.State, w: nat)
    requires H.Enabled(c, w) && H.InBounds(c, w) && c.workers[w].pc != H.Fetch
    ensures var c' := H.Step(c, w, H.Waiting);
      c'.given == c.given && |c'.workers| == |c.workers| && c'.workers[w].pc != H.Done &&
      forall u :: 0 <= u < |c.workers| && u != w ==> c'.workers[u] == c.workers[u]
  {
  }

  lemma FetchingWorker(c: H.State, w: nat, fetched: H.Fetched)
    requires H.Enabled(c, w) && H.InBounds(c, w) && c.workers[w].pc == H.Fetch
    ensures var c' := H.Step(c, w, fetched);
      && c'.given == c.given + (if fetched.Got? then [fetched.file] else []) && |c'.workers| == |c.workers|
      && (c'.workers[w].pc == H.Done <==> fetched.NoMore?)
      && (fetched.Waiting? ==> c'.workers[w].pc == H.Fetch)
      && forall u :: 0 <= u < |c.workers| && u != w ==> c'.workers[u] == c.workers[u]
  {
  }

  /** What a worker learns is what its pop returns. */
  lemma LearnedIsReturned(input: Input, t: nat, pc: Q.Pc, returned: seq<(nat, Q.Job)>)
    ensures var learned := Learned(input, pc);
      FilesOf(input, Q.Jobs(returned + Q.Returned(t, pc)))
        == FilesOf(input, Q.Jobs(returned)) + if learned.Got? then [learned.file] else []
    ensures !Learned(input, pc).Waiting? ==> pc.PopUnlock? || pc.PopGiveUp?
    ensures Learned(input, pc).NoMore? ==> pc.PopGiveUp? || pc == Q.PopUnlock(None)
  {
  }

  lemma PopAllowed(q: Q.State, t: nat)
    ensures Q.Allowed(q, t, Q.Pop)
  {
  }

  /** A step of a worker in its pop. */
  lemma StepFetching(input: Input, s: State, w: nat)
    requires Inv(input, s) && Enabled(s, w) && Fetching(s, w)
    ensures InBounds(s, w) && Inv(input, Step(input, s, w))
  {
    hide Q.Inv, H.Inv, H.InBounds, H.Enabled, H.Step, Q.Ready, Q.Allowed, Q.Next, Q.InBounds, Q.InPop, Q.InPush, Q.LockAfter, Q.Returned,
      MainInv, FilesOf, Q.Jobs, Q.Drained, Learned;
    var pc, learned := s.queue.Pc(w), Learned(input, s.queue.Pc(w));
    QueueFacts(s.queue, w);
    PopAllowed(s.queue, w);
    Q.StepInv(s.queue, w, Q.Pop);
    H.StepInv(s.count, w, learned);
    FetchingWorker(s.count, w, learned);
    LearnedIsReturned(input, w, pc, s.queue.returned);
    PopPlaces(s.queue.queue, pc);
    if !learned.Waiting? { Q.PopEnds(s.queue.queue, pc, Q.Pop); }
    if learned.NoMore? { Q.FailsDrained(s.queue, w); }
    if Q.Drained(s.queue) { Q.DrainedStays(s.queue, w, Q.Pop); }
    PlacesKept(s, Step(input, s, w), w);
  }

  lemma PopPlaces(q: Q.Fields, pc: Q.Pc)
    requires Q.InBounds(q) && (Q.InPop(pc) || pc.Idle?)
    ensures var (q', pc') := Q.Next(q, pc, Q.Pop); q'.pushed == q.pushed && (Q.InPop(pc') || pc'.Idle?)
    ensures Q.InPop(pc) ==> !Q.InPush(pc)
  {
    hide Q.PushNext, Q.PopNext, Q.DestroyNext;
    Q.StaysInPop(q, pc, Q.Pop);
    Q.OnlyPushPushes(q, pc, Q.Pop);
  }

  /** Every step of every thread keeps the invariant. */
  lemma StepInv(input: Input, s: State, t: nat)
    requires Inv(input, s) && Enabled(s, t)
    ensures InBounds(s, t) && t <= s.Main() && Inv(input, Step(input, s, t))
  {
    hide Inv, InBounds, Step, H.Enabled, Q.Ready;
    if t == s.Main() { StepMain(input, s); }
    else if Fetching(s, t) { StepFetching(input, s, t); }
    else { StepCounting(input, s, t); }
  }

  // ----- runs -----

  /** Thread `t` moves.  An access out of bounds would leave anything behind; none ever happens. */
  ghost predicate Move(input: Input, s: State, s': State, t: nat) {
    Enabled(s, t) && (t <= s.Main() && InBounds(s, t) ==> s' == Step(input, s, t))
  }

  /** A run: any interleaving of the main thread and the workers. */
  ghost predicate IsRun(input: Input, states: seq<State>, movers: seq<nat>) {
    && |states| == |movers| + 1 && Initial(states[0])
    && forall i :: 0 <= i < |movers| ==> Move(input, states[i], states[i + 1], movers[i])
  }

  lemma MoveInv(input: Input, s: State, s': State, t: nat)
    requires Inv(input, s) && Move(input, s, s', t)
    ensures Inv(input, s')
  {
    hide Inv, Enabled, InBounds, Step;
    StepInv(input, s, t);
  }

  lemma {:induction false} RunInv(input: Input, states: seq<State>, movers: seq<nat>)
    requires IsRun(input, states, movers)
    ensures forall s :: s in states ==> Inv(input, s)
    decreases |movers|
  {
    hide Inv, Initial, Move;
    var n := |movers|;
    if n == 0 {
      InitialInv(input, states[0]);
    } else {
      var before := states[..n];
      assert IsRun(input, before, movers[..n - 1]);
      RunInv(input, before, movers[..n - 1]);
      assert states[n - 1] in before;
      MoveInv(input, states[n - 1], states[n], movers[n - 1]);
    }
  }

  /** In every state of every run, the global histogram and what the workers keep add up to the bits read. */
  lemma NothingLost(input: Input, states: seq<State>, movers: seq<nat>, s: State, k: nat)
    requires IsRun(input, states, movers) && s in states && k < 8
    ensures |s.count.global| == 8 && H.Sized(s.count.workers)
    ensures s.count.global[k] + H.TotalKept(s.count.workers, k) == Ones(s.count.consumed, k)
  {
    hide IsRun, PlacesInv, Q.Inv, GivenInv, DoneInv, MainInv, H.WorkerInv, H.TotalKept, H.TotalLeft;
    RunInv(input, states, movers);
    assert H.Balanced(s.count, k);
  }

  /** In every state of every run, an entry of the global histogram is behind the bits read by no more than
      the bits of a hundred thousand bytes for each worker. */
  lemma NeverFarBehind(input: Input, states: seq<State>, movers: seq<nat>, s: State, k: nat)
    requires IsRun(input, states, movers) && s in states && k < 8
    ensures |s.count.global| == 8
    ensures Ones(s.count.consumed, k) - 100000 * |s.count.workers| <= s.count.global[k] <= Ones(s.count.consumed, k)
  {
    hide IsRun, PlacesInv, Q.Inv, GivenInv, DoneInv, MainInv, H.WorkerInv, H.TotalKept, H.TotalLeft;
    RunInv(input, states, movers);
    assert H.Balanced(s.count, k);
    H.KeptBound(s.count.global, s.count.workers, k);
  }

  /** In every state of every run, some thread can move, unless destroy has returned and all workers are done. */
  lemma NeverStuck(input: Input, states: seq<State>, movers: seq<nat>, s: State)
    requires IsRun(input, states, movers) && s in states
    ensures (exists t :: Enabled(s, t)) ||
      (s.queue.Pc(s.Main()).Destroyed? && forall w :: 0 <= w < |s.count.workers| ==> s.count.workers[w].pc == H.Done)
  {
    hide IsRun, Inv;
    RunInv(input, states, movers);
    SomeMoves(input, s);
  }

  lemma SomeMoves(input: Input, s: State)
    requires Inv(input, s)
    ensures (exists t :: Enabled(s, t)) ||
      (s.queue.Pc(s.Main()).Destroyed? && forall w :: 0 <= w < |s.count.workers| ==> s.count.workers[w].pc == H.Done)
  {
    hide Inv, Enabled;
    if w :| 0 <= w < s.Main() && s.count.workers[w].pc != H.Done && s.count.workers[w].pc != H.Fetch {
      CounterMoves(input, s, w);
    } else if s.queue.lock.Some? {
      HolderMoves(input, s);
    } else if w :| 0 <= w < s.Main() && s.count.workers[w].pc == H.Fetch {
      FetcherMoves(input, s, w);
    } else if !s.queue.Pc(s.Main()).Destroyed? {
      MainMovesOn(input, s);
    }
  }

  /** A worker that counts can move, or the holder of the mutex of the global histogram can. */
  lemma CounterMoves(input: Input, s: State, w: nat)
    requires Inv(input, s) && w < s.Main() && s.count.workers[w].pc != H.Done && s.count.workers[w].pc != H.Fetch
    ensures exists t :: Enabled(s, t)
  {
    hide PlacesInv, Q.Inv, GivenInv, DoneInv, MainInv, H.WorkerInv, H.Balanced, Q.Ready;
    if s.count.lock == None {
      assert Enabled(s, w);
    } else {
      assert H.HasLock(s.count.workers[s.count.lock.value].pc);
      assert Enabled(s, s.count.lock.value);
    }
  }

  /** The holder of the mutex of the queue is the main thread or a worker in its pop, and can move. */
  lemma HolderMoves(input: Input, s: State)
    requires Inv(input, s) && s.queue.lock.Some?
    ensures exists t :: Enabled(s, t)
  {
    hide H.Inv, GivenInv, DoneInv, MainInv, Q.RingInv, Q.TestInv, Q.CountInv, Q.HandsInv, Q.DestroyInv, Q.Ready;
    var t := s.queue.lock.value;
    assert t in s.queue.threads && Q.HasMutex(s.queue.Pc(t));
    Q.MutexReady(s.queue, t);
    assert Enabled(s, t);
  }

  lemma FetcherMoves(input: Input, s: State, w: nat)
    requires Inv(input, s) && s.queue.lock == None && w < s.Main() && s.count.workers[w].pc == H.Fetch
    ensures exists t :: Enabled(s, t)
  {
    hide H.Inv, GivenInv, DoneInv, MainInv, Q.Inv, Q.Ready;
    Q.MutexReady(s.queue, w);
    assert Enabled(s, w);
  }

  lemma MainMovesOn(input: Input, s: State)
    requires Inv(input, s) && s.queue.lock == None && !s.queue.Pc(s.Main()).Destroyed?
    ensures exists t :: Enabled(s, t)
  {
    hide H.Inv, PlacesInv, GivenInv, DoneInv, MainInv, Q.Inv, Q.Ready;
    Q.MutexReady(s.queue, s.Main());
    assert Enabled(s, s.Main());
  }

  /** In every state of every run, the main thread may make the call it is about to make. */
  lemma CallsAllowed(input: Input, states: seq<State>, movers: seq<nat>, s: State, t: nat)
    requires IsRun(input, states, movers) && s in states && t <= s.Main()
    ensures Q.Allowed(s.queue, t, CallOf(input, s, t))
  {
    hide IsRun, Q.Inv, H.Inv, Q.Allowed;
    RunInv(input, states, movers);
    if t == s.Main() { MainAllowed(input, s); } else { PopAllowed(s.queue, t); }
  }

  /** A worker is done only when every path has been pushed, popped and returned. */
  lemma DoneMeansReturned(input: Input, s: State)
    requires Inv(input, s) && s.count.workers != []
    requires forall w :: 0 <= w < s.Main() ==> s.count.workers[w].pc == H.Done
    ensures Q.Jobs(s.queue.returned) == input.paths
  {
    hide H.Inv, Q.Inv, Q.Jobs, Q.Carried, Q.InPop, GivenInv;
    Q.HandsIs(s.queue);
    assert s.count.workers[0].pc == H.Done;
    assert Q.Drained(s.queue);
    assert input.paths[..|input.paths|] == input.paths;
    NothingCarried(s);
    assert Q.Jobs(s.queue.returned) + [] == Q.Jobs(s.queue.returned);
  }

  lemma NothingCarried(s: State)
    requires PlacesInv(s) && Q.Inv(s.queue)
    requires forall w :: 0 <= w < s.Main() ==> s.count.workers[w].pc == H.Done
    ensures Q.Carried(Q.Holder(s.queue)) == []
  {
    hide Q.RingInv, Q.TestInv, Q.CountInv, Q.HandsInv, Q.DestroyInv;
    if s.queue.lock.Some? {
      var t := s.queue.lock.value;
      assert t in s.queue.threads;
      if t < s.Main() { assert s.count.workers[t].pc != H.Fetch; }
    }
  }

  /** Every completed run, with any number of workers, ends with the histogram of the files of all paths. */
  lemma CompletedRun(input: Input, states: seq<State>, movers: seq<nat>)
    requires IsRun(input, states, movers)
    requires var s := states[|states| - 1];
      s.count.workers != [] && forall w :: 0 <= w < |s.count.workers| ==> s.count.workers[w].pc == H.Done
    ensures var global := states[|states| - 1].count.global;
      var files := seq(|input.paths|, i requires 0 <= i < |input.paths| => input.disk(input.paths[i]));
      |global| == 8 && forall k :: 0 <= k < 8 ==> global[k] == Ones(AllBytes(files), k)
  {
    hide Initial, Move, PlacesInv, DoneInv, MainInv, H.Inv, Q.Inv, Ones, AllBytes;
    var s := states[|states| - 1];
    RunInv(input, states, movers);
    DoneMeansReturned(input, s);
    H.AllDone(s.count);
    assert FilesOf(input, input.paths) == seq(|input.paths|, i requires 0 <= i < |input.paths| => input.disk(input.paths[i]));
  }

  /** What the sequential program computes from the same files, given in the order of the paths. */
  method SequentialAgrees(input: Input, files: seq<File>, ghost states: seq<State>, ghost movers: seq<nat>) returns (global: array<int>)
    requires |files| == |input.paths| && forall i :: 0 <= i < |files| ==> files[i] == input.disk(input.paths[i])
    requires IsRun(input, states, movers)
    requires var s := states[|states| - 1];
      s.count.workers != [] && forall w :: 0 <= w < |s.count.workers| ==> s.count.workers[w].pc == H.Done
    ensures global[..] == states[|states| - 1].count.global
  {
    hide Initial, Move, Ones, AllBytes;
    global := Sequential(files);
    CompletedRun(input, states, movers);
    assert files == seq(|input.paths|, i requires 0 <= i < |input.paths| => input.disk(input.paths[i]));
  }

  // ----- the program in place -----

  /** The queue, the counters of the workers, and the main thread's place in the list of paths. */
  class Program {
    const input: Input
    const queue: Q.Queue
    const counters: H.Counters
    var sent: nat

    ghost predicate Valid()
      reads counters, counters.threads
    {
      counters.Valid() && queue.data != counters.global && forall t :: t in counters.threads ==> t.local != queue.data
    }

    ghost function View(): State
      reads this, queue, queue.data, counters, counters.global, counters.threads, set t | t in counters.threads :: t.local
    {
      State(counters.View(), queue.View(), sent)
    }

    /** A queue of the given capacity and so many workers. */
    constructor (input: Input, capacity: nat, workers: nat)
      requires capacity >= 1
      ensures this.input == input && |counters.threads| == workers && Valid() && Initial(View())
    {
      this.input := input;
      queue := new Q.Queue(capacity);
      counters := new H.Counters(workers);
      sent := 0;
    }

    /** A step of the main thread. */
    method RunMain()
      requires Valid() && Inv(input, View()) && Enabled(View(), |counters.threads|)
      modifies this`sent, queue, queue.data
      ensures Valid() && Inv(input, View()) && Move(input, old(View()), View(), |counters.threads|)
    {
      hide Inv, Enabled, H.Inv, Q.Inv, H.Step, Q.Step, Q.Ready, Q.Allowed, H.InBounds, Q.InBounds;
      ghost var s := View();
      var n := |counters.threads|;
      MainReady(input, s);
      StepMain(input, s);
      var pc := if n in queue.threads then queue.threads[n] else Q.Idle;
      queue.StepThread(n, MainCall(input, sent));
      if pc.PushUnlock? || pc.PushRefused? { sent := sent + 1; }
      assert View() == Step(input, s, n);
    }

    /** A step of worker `w`: a statement of its pop, or of its counting. */
    method RunWorker(w: nat)
      requires Valid() && w < |counters.threads| && Inv(input, View()) && Enabled(View(), w)
      modifies queue, queue.data, counters, counters.global, counters.threads[w], counters.threads[w].local
      ensures Valid() && Inv(input, View()) && Move(input, old(View()), View(), w)
    {
      hide Inv, Enabled, H.Inv, Q.Inv, H.Step, Q.Step, H.Enabled, Q.Ready, Q.Allowed, H.InBounds, Q.InBounds;
      ghost var s := View();
      WorkerReady(input, s, w);
      StepInv(input, s, w);
      if counters.threads[w].pc == H.Fetch {
        var pc := if w in queue.threads then queue.threads[w] else Q.Idle;
        queue.StepThread(w, Q.Pop);
        counters.StepThread(w, Learned(input, pc));
      } else {
        counters.StepThread(w, H.Waiting);
      }
      assert View() == Step(input, s, w);
    }
  }

  lemma WorkerReady(input: Input, s: State, w: nat)
    requires Inv(input, s) && Enabled(s, w) && w < s.Main()
    ensures H.Inv(s.count) && Q.Inv(s.queue) && H.Enabled(s.count, w)
    ensures Fetching(s, w) ==> Q.Ready(s.queue, w) && Q.Allowed(s.queue, w, Q.Pop)
  {
    hide Q.Inv, H.Inv, Q.Ready, Q.Allowed, H.Enabled;
    PopAllowed(s.queue, w);
  }

  lemma MainReady(input: Input, s: State)
    requires Inv(input, s) && Enabled(s, s.Main())
    ensures Q.Inv(s.queue) && Q.Ready(s.queue, s.Main()) && Q.Allowed(s.queue, s.Main(), MainCall(input, s.sent))
  {
    hide Q.Inv, H.Inv, Q.Ready, Q.Allowed;
    MainAllowed(input, s);
  }
}
