/** The bounded blocking job queue as steps of any number of threads: each thread has a program
    point, the mutex has at most one holder, and a thread in a condition wait may wake at any
    time.  Pushers are done before destroy is called. */
module JobQueue {
  import opened Options

  /** A job is a pointer the queue never follows. */
  type Job = int

  /** Where a thread is; the statement named is the next one it executes. */
  datatype Pc =
    | Idle
    // job_queue_push
    | PushStart(job: Job)     // the unlocked test of the destroy flag
    | PushRefused           // unlock and fail
    | PushLock(job: Job)
    | PushTest(job: Job)      // the loop test on a full queue
    | PushWait(job: Job)      // waiting, mutex released
    | PushWake(job: Job)      // woken, mutex not yet taken again
    | PushStore(job: Job)
    | PushCount
    | PushMove
    | PushUnlock
    // job_queue_pop; once taken, the job is in the hands of the thread
    | PopStart              // the unlocked test of cons_amount
    | PopStartFlag          // ... of the destroy flag
    | PopStartCount         // ... of queue_count
    | PopGiveUp             // signal and fail
    | PopLock
    | PopEnter
    | PopTest               // the loop test on an empty queue
    | PopWait
    | PopWake
    | PopDecide             // is the queue empty and to be destroyed?
    | PopLeaveEmpty
    | PopTake
    | PopCount(taken: Job)
    | PopMove(taken: Job)
    | PopLeave(taken: Job)
    | PopUnlock(result: Option<Job>)
    // job_queue_destroy
    | DestroyLock
    | DestroyFlag
    | DestroyTest           // the loop test on a non-empty queue or present consumers
    | DestroyWait
    | DestroyWake
    | DestroyUnlock
    | DestroyFree           // destroy the mutex and the conditions, free the ring
    | Destroyed

  /** What an idle thread may start. */
  datatype Call = Push(job: Job) | Pop | Destroy

  /** The fields of the queue, and the history of stored and taken jobs. */
  datatype Fields = Fields(
    data: seq<Job>, prod: int, cons: int, count: int, flag: bool, consAmount: int, pushed: seq<Job>, popped: seq<Job>)

  /** The queue, its mutex, the threads, whether destroy was called, and what pops have returned to whom. */
  datatype State = State(queue: Fields, lock: Option<nat>, threads: map<nat, Pc>, called: bool, returned: seq<(nat, Job)>)
  {
    function Pc(t: nat): Pc {
      if t in threads then threads[t] else Idle
    }
  }

  predicate InPush(pc: Pc) {
    pc.PushStart? || pc.PushRefused? || pc.PushLock? || pc.PushTest? || pc.PushWait? || pc.PushWake? || pc.PushStore? ||
    pc.PushCount? || pc.PushMove? || pc.PushUnlock?
  }

  predicate InDestroy(pc: Pc) {
    pc.DestroyLock? || pc.DestroyFlag? || pc.DestroyTest? || pc.DestroyWait? || pc.DestroyWake? || pc.DestroyUnlock? ||
    pc.DestroyFree? || pc.Destroyed?
  }

  predicate InPop(pc: Pc) { !pc.Idle? && !InPush(pc) && !InDestroy(pc) }

  /** Between taking and releasing the mutex, and not waiting. */
  predicate HasMutex(pc: Pc) {
    pc.PushTest? || pc.PushStore? || pc.PushCount? || pc.PushMove? || pc.PushUnlock? ||
    pc.PopEnter? || pc.PopTest? || pc.PopDecide? || pc.PopLeaveEmpty? || pc.PopTake? || pc.PopCount? || pc.PopMove? ||
    pc.PopLeave? || pc.PopUnlock? ||
    pc.DestroyFlag? || pc.DestroyTest? || pc.DestroyUnlock?
  }

  /** The next statement takes the mutex. */
  predicate Acquires(pc: Pc) {
    pc.PushLock? || pc.PushWake? || pc.PopLock? || pc.PopWake? || pc.DestroyLock? || pc.DestroyWake?
  }

  /** A consumer that has been counted and not yet uncounted, waiting or running. */
  predicate Inside(pc: Pc) {
    pc.PopTest? || pc.PopWait? || pc.PopWake? || pc.PopDecide? || pc.PopLeaveEmpty? || pc.PopTake? || pc.PopCount? ||
    pc.PopMove? || pc.PopLeave?
  }

  function NextSlot(i: int, capacity: int): int { if i + 1 >= capacity then 0 else i + 1 }

  predicate InBounds(q: Fields) { 0 <= q.prod < |q.data| && 0 <= q.cons < |q.data| }

  function PushNext(q: Fields, pc: Pc): (Fields, Pc)
    requires InBounds(q)
  {
    match pc
    case PushStart(j) => (q, if q.flag then PushRefused else PushLock(j))
    case PushRefused => (q, Idle)
    case PushLock(j) => (q, PushTest(j))
    case PushTest(j) => (q, if |q.data| <= q.count then PushWait(j) else PushStore(j))
    case PushWait(j) => (q, PushWake(j))
    case PushWake(j) => (q, PushTest(j))
    case PushStore(j) => (q.(data := q.data[q.prod := j], pushed := q.pushed + [j]), PushCount)
    case PushCount => (q.(count := q.count + 1), PushMove)
    case PushMove => (q.(prod := NextSlot(q.prod, |q.data|)), PushUnlock)
    case PushUnlock => (q, Idle)
    case _ => (q, pc)
  }

  /** A consumer in the tests before the mutex, or on its way through the wait loop. */
  predicate Entering(pc: Pc) {
    pc.PopStart? || pc.PopStartFlag? || pc.PopStartCount? || pc.PopGiveUp? || pc.PopLock? || pc.PopEnter? || pc.PopTest? ||
    pc.PopWait? || pc.PopWake?
  }

  function PopEnterNext(q: Fields, pc: Pc): (Fields, Pc) {
    match pc
    case PopStart => (q, if q.consAmount == 0 then PopStartFlag else PopLock)
    case PopStartFlag => (q, if q.flag then PopStartCount else PopLock)
    case PopStartCount => (q, if q.count == 0 then PopGiveUp else PopLock)
    case PopGiveUp => (q, Idle)
    case PopLock => (q, PopEnter)
    case PopEnter => (q.(consAmount := q.consAmount + 1), PopTest)
    case PopTest => (q, if q.count <= 0 && !q.flag then PopWait else PopDecide)
    case PopWait => (q, PopWake)
    case PopWake => (q, PopTest)
    case _ => (q, pc)
  }

  function PopLeaveNext(q: Fields, pc: Pc): (Fields, Pc)
    requires InBounds(q)
  {
    match pc
    case PopDecide => (q, if q.count <= 0 && q.flag then PopLeaveEmpty else PopTake)
    case PopLeaveEmpty => (q.(consAmount := q.consAmount - 1), PopUnlock(None))
    case PopTake => (q.(popped := q.popped + [q.data[q.cons]]), PopCount(q.data[q.cons]))
    case PopCount(j) => (q.(count := q.count - 1), PopMove(j))
    case PopMove(j) => (q.(cons := NextSlot(q.cons, |q.data|)), PopLeave(j))
    case PopLeave(j) => (q.(consAmount := q.consAmount - 1), PopUnlock(Some(j)))
    case PopUnlock(_) => (q, Idle)
    case _ => (q, pc)
  }

  function PopNext(q: Fields, pc: Pc): (Fields, Pc)
    requires InBounds(q)
  {
    if Entering(pc) then PopEnterNext(q, pc) else PopLeaveNext(q, pc)
  }

  function DestroyNext(q: Fields, pc: Pc): (Fields, Pc) {
    match pc
    case DestroyLock => (q, DestroyFlag)
    case DestroyFlag => (q.(flag := true), DestroyTest)
    case DestroyTest => (q, if q.count > 0 || q.consAmount > 0 then DestroyWait else DestroyUnlock)
    case DestroyWait => (q, DestroyWake)
    case DestroyWake => (q, DestroyTest)
    case DestroyUnlock => (q, DestroyFree)
    case DestroyFree => (q, Destroyed)
    case _ => (q, pc)
  }

  function Start(call: Call): Pc {
    match call
    case Push(j) => PushStart(j)
    case Pop => PopStart
    case Destroy => DestroyLock
  }

  /** The next statement of a thread; an idle one starts `call`. */
  function Next(q: Fields, pc: Pc, call: Call): (Fields, Pc)
    requires InBounds(q)
  {
    if pc.Idle? then (q, Start(call))
    else if InPush(pc) then PushNext(q, pc)
    else if InDestroy(pc) then DestroyNext(q, pc)
    else PopNext(q, pc)
  }

  /** The mutex after thread `t` has moved: taken on the way into a critical section, released on the way
      out; a refused push unlocks a mutex it does not hold. */
  function LockAfter(lock: Option<nat>, t: nat, pc: Pc, pc': Pc): Option<nat> {
    if HasMutex(pc') then Some(t) else if HasMutex(pc) || pc.PushRefused? then None else lock
  }

  /** What the end of a successful pop adds to the history. */
  function Returned(t: nat, pc: Pc): seq<(nat, Job)> {
    if pc.PopUnlock? && pc.result.Some? then [(t, pc.result.value)] else []
  }

  /** The state after one step of thread `t`. */
  function Step(s: State, t: nat, call: Call): State
    requires InBounds(s.queue)
  {
    var pc := s.Pc(t);
    var (queue, pc') := Next(s.queue, pc, call);
    State(queue, LockAfter(s.lock, t, pc, pc'), s.threads[t := pc'], s.called || (pc.Idle? && call.Destroy?),
          s.returned + Returned(t, pc))
  }

  ghost predicate Initial(s: State) {
    var q := s.queue;
    && |q.data| >= 1 && q.prod == 0 && q.cons == 0 && q.count == 0 && !q.flag && q.consAmount == 0
    && q.pushed == [] && q.popped == []
    && s.lock == None && s.threads == map[] && !s.called && s.returned == []
  }

  /** Thread `t` can take its next step. */
  predicate Ready(s: State, t: nat) {
    !s.Pc(t).Destroyed? && (Acquires(s.Pc(t)) ==> s.lock == None)
  }

  /** Callers push only before destroy is called, and call destroy once, when no push is under way. */
  ghost predicate Allowed(s: State, t: nat, call: Call) {
    s.Pc(t).Idle? ==>
      && (call.Push? ==> !s.called)
      && (call.Destroy? ==> !s.called && forall u :: u in s.threads ==> !InPush(s.threads[u]))
  }

  // ----- the invariant -----

  ghost predicate MutexInv(threads: map<nat, Pc>, lock: Option<nat>) {
    && (forall t :: t in threads ==> (HasMutex(threads[t]) <==> lock == Some(t)))
    && (lock.Some? ==> lock.value in threads)
  }

  /** The statement the mutex holder executes next, if there is a holder. */
  function Holder(s: State): Pc {
    if s.lock.Some? then s.Pc(s.lock.value) else Idle
  }

  // The queue as it will be when the holder, at `h`, has finished the update it is in the middle of.

  function Count(q: Fields, h: Pc): int {
    match h
    case PushCount => q.count + 1
    case PopCount(_) => q.count - 1
    case _ => q.count
  }

  function Prod(q: Fields, h: Pc): int {
    match h
    case PushCount => NextSlot(q.prod, |q.data|)
    case PushMove => NextSlot(q.prod, |q.data|)
    case _ => q.prod
  }

  function Cons(q: Fields, h: Pc): int {
    match h
    case PopCount(_) => NextSlot(q.cons, |q.data|)
    case PopMove(_) => NextSlot(q.cons, |q.data|)
    case _ => q.cons
  }

  /** Position `i` places after `start` in the ring. */
  function Slot(start: int, i: int, capacity: int): int {
    if start + i >= capacity then start + i - capacity else start + i
  }

  /** A ring with `count` jobs from `cons` to `prod` holds exactly the stored jobs that have not been taken, oldest first. */
  ghost predicate Ring(data: seq<Job>, prod: int, cons: int, count: int, pushed: seq<Job>, popped: seq<Job>) {
    && 1 <= |data| && 0 <= cons < |data|
    && popped <= pushed && count == |pushed| - |popped| <= |data|
    && prod == Slot(cons, count, |data|)
    && forall i :: 0 <= i < count ==> data[Slot(cons, i, |data|)] == pushed[|popped| + i]
  }

  ghost predicate RingInv(q: Fields, h: Pc) {
    InBounds(q) && Ring(q.data, Prod(q, h), Cons(q, h), Count(q, h), q.pushed, q.popped)
  }

  ghost function Consumers(threads: map<nat, Pc>): set<nat> {
    set t | t in threads && Inside(threads[t])
  }

  ghost predicate CountInv(s: State) {
    s.queue.consAmount == |Consumers(s.threads)|
  }

  /** What the holder has tested under the mutex still holds. */
  ghost predicate TestInv(q: Fields, h: Pc) {
    match h
    case PushStore(_) => q.count < |q.data|
    case PopDecide => q.count > 0 || q.flag
    case PopTake => q.count > 0
    case DestroyUnlock => q.count == 0 && q.consAmount == 0
    case _ => true
  }

  /** The job a thread has taken and not yet returned. */
  function Carried(pc: Pc): seq<Job> {
    match pc
    case PopCount(j) => [j]
    case PopMove(j) => [j]
    case PopLeave(j) => [j]
    case PopUnlock(Some(j)) => [j]
    case _ => []
  }

  function Jobs(returned: seq<(nat, Job)>): (jobs: seq<Job>)
    ensures |jobs| == |returned|
  {
    seq(|returned|, i requires 0 <= i < |returned| => returned[i].1)
  }

  /** Every job taken has been returned, except the one in the hands of the holder. */
  ghost predicate HandsInv(s: State) {
    s.queue.popped == Jobs(s.returned) + Carried(Holder(s))
  }

  /** The destroyer has set the flag, or a consumer has seen it. */
  predicate FlagSet(pc: Pc) {
    (InDestroy(pc) && !pc.DestroyLock? && !pc.DestroyFlag?) || pc.PopStartCount? || pc.PopGiveUp? || pc.PopLeaveEmpty? ||
    pc == PopUnlock(None)
  }

  /** The destroyer has left its wait loop, or a consumer is about to fail. */
  predicate Emptied(pc: Pc) {
    pc.DestroyUnlock? || pc.DestroyFree? || pc.Destroyed? || pc.PopGiveUp? || pc.PopLeaveEmpty? || pc == PopUnlock(None)
  }

  /** The thread tests whether the queue is empty. */
  predicate Tests(q: Fields, pc: Pc) {
    pc.DestroyTest? || pc.PopStartCount? || (pc.PopDecide? && q.flag)
  }

  /** Destroy is called once, after every push, and its flag is set by nobody else. */
  ghost predicate DestroyInv(s: State) {
    && (s.queue.flag ==> s.called)
    && (s.called ==> forall t :: t in s.threads ==> !InPush(s.threads[t]))
    && (forall t :: t in s.threads && InDestroy(s.threads[t]) ==> s.called)
    && (forall t, u :: t in s.threads && u in s.threads && InDestroy(s.threads[t]) && InDestroy(s.threads[u]) ==> t == u)
    && (forall t :: t in s.threads ==> !s.threads[t].PushRefused?)
    && (forall t :: t in s.threads && FlagSet(s.threads[t]) ==> s.queue.flag)
    && (forall t :: t in s.threads && Emptied(s.threads[t]) ==> s.queue.pushed == s.queue.popped)
  }

  ghost predicate Inv(s: State) {
    && MutexInv(s.threads, s.lock) && RingInv(s.queue, Holder(s)) && TestInv(s.queue, Holder(s)) && CountInv(s) && HandsInv(s)
    && DestroyInv(s)
  }

  lemma InitialInv(s: State)
    requires Initial(s)
    ensures Inv(s)
  {
  }

  // ----- one statement, over the queue and one program point -----

  /** The mutex holder, or nobody, after a step of the holder. */
  function HolderAfter(pc': Pc): Pc { if HasMutex(pc') then pc' else Idle }

  /** Only the statements that take the mutex enter a critical section. */
  lemma EntersByLock(q: Fields, pc: Pc, call: Call)
    requires InBounds(q) && !HasMutex(pc) && HasMutex(Next(q, pc, call).1)
    ensures Acquires(pc)
  {
  }

  /** Statements outside the mutex leave the queue alone. */
  lemma Outside(q: Fields, pc: Pc, call: Call)
    requires InBounds(q) && !HasMutex(pc)
    ensures Next(q, pc, call).0 == q
    ensures Carried(pc) == [] && (HasMutex(Next(q, pc, call).1) ==> Carried(Next(q, pc, call).1) == [])
  {
  }

  predicate JustLocked(pc: Pc) { pc.PushTest? || pc.PopEnter? || pc.PopTest? || pc.DestroyFlag? || pc.DestroyTest? }

  lemma EntersAtTop(q: Fields, pc: Pc, call: Call)
    requires InBounds(q) && !HasMutex(pc) && HasMutex(Next(q, pc, call).1)
    ensures JustLocked(Next(q, pc, call).1)
  {
  }

  lemma Locked(q: Fields, pc: Pc)
    requires RingInv(q, Idle) && JustLocked(pc)
    ensures RingInv(q, pc) && TestInv(q, pc)
  {
    hide Ring;
  }

  function Presence(pc: Pc): int { if Inside(pc) then 1 else 0 }

  lemma PopCountMoves(q: Fields, pc: Pc)
    requires InBounds(q) && InPop(pc)
    ensures var (q', pc') := PopNext(q, pc); q'.consAmount - q.consAmount == Presence(pc') - Presence(pc)
  {
  }

  predicate NoConsumer(pc: Pc) { !Inside(pc) && Carried(pc) == [] && !pc.PopUnlock? }

  lemma PushNoConsumer(q: Fields, pc: Pc)
    requires InBounds(q) && InPush(pc)
    ensures var (q', pc') := PushNext(q, pc);
      q'.consAmount == q.consAmount && q'.popped == q.popped && NoConsumer(pc) && NoConsumer(pc')
  {
  }

  lemma DestroyNoConsumer(q: Fields, pc: Pc)
    requires InDestroy(pc)
    ensures var (q', pc') := DestroyNext(q, pc);
      q'.consAmount == q.consAmount && q'.popped == q.popped && NoConsumer(pc) && NoConsumer(pc')
  {
  }

  /** Threads that do not pop are no consumers. */
  lemma OthersAbsent(q: Fields, pc: Pc, call: Call)
    requires InBounds(q) && !InPop(pc)
    ensures var (q', pc') := Next(q, pc, call);
      q'.consAmount == q.consAmount && q'.popped == q.popped && NoConsumer(pc) && NoConsumer(pc')
  {
    hide PushNext, DestroyNext, PopNext, InPush, InDestroy;
    if InPush(pc) { PushNoConsumer(q, pc); }
    else if InDestroy(pc) { DestroyNoConsumer(q, pc); }
  }

  lemma CountMoves(q: Fields, pc: Pc, call: Call)
    requires InBounds(q)
    ensures var (q', pc') := Next(q, pc, call); q'.consAmount - q.consAmount == Presence(pc') - Presence(pc)
  {
    hide PushNext, PopNext, DestroyNext, Inside;
    if InPop(pc) { PopCountMoves(q, pc); } else { OthersAbsent(q, pc, call); }
  }

  lemma SlotLast(cons: int, count: int, capacity: int)
    requires 0 <= cons < capacity && 0 <= count < capacity
    ensures 0 <= Slot(cons, count, capacity) < capacity
    ensures forall i :: 0 <= i < count ==> Slot(cons, i, capacity) != Slot(cons, count, capacity)
    ensures NextSlot(Slot(cons, count, capacity), capacity) == Slot(cons, count + 1, capacity)
  {
  }

  /** Storing a job behind the newest one. */
  lemma RingStore(data: seq<Job>, prod: int, cons: int, count: int, pushed: seq<Job>, popped: seq<Job>, job: Job)
    requires Ring(data, prod, cons, count, pushed, popped) && count < |data|
    ensures 0 <= prod < |data|
    ensures Ring(data[prod := job], NextSlot(prod, |data|), cons, count + 1, pushed + [job], popped)
  {
    SlotLast(cons, count, |data|);
  }

  /** Taking the oldest job. */
  lemma RingTake(data: seq<Job>, prod: int, cons: int, count: int, pushed: seq<Job>, popped: seq<Job>)
    requires Ring(data, prod, cons, count, pushed, popped) && count > 0
    ensures Ring(data, prod, NextSlot(cons, |data|), count - 1, pushed, popped + [data[cons]])
  {
    var n, k := |data|, |popped|;
    assert data[Slot(cons, 0, n)] == pushed[k];
    assert pushed[..k + 1] == popped + [data[cons]];
    forall i | 0 <= i < count - 1
      ensures data[Slot(NextSlot(cons, n), i, n)] == pushed[k + 1 + i]
    {
      assert Slot(NextSlot(cons, n), i, n) == Slot(cons, i + 1, n);
      assert data[Slot(cons, i + 1, n)] == pushed[k + (i + 1)];
    }
  }

  lemma PushRing(q: Fields, pc: Pc)
    requires RingInv(q, pc) && TestInv(q, pc) && HasMutex(pc) && InPush(pc)
    ensures var (q', pc') := PushNext(q, pc); RingInv(q', HolderAfter(pc')) && TestInv(q', HolderAfter(pc'))
  {
    hide Ring;
    if pc.PushStore? { RingStore(q.data, q.prod, q.cons, q.count, q.pushed, q.popped, pc.job); }
  }

  lemma PopRing(q: Fields, pc: Pc)
    requires RingInv(q, pc) && TestInv(q, pc) && HasMutex(pc) && InPop(pc)
    ensures var (q', pc') := PopNext(q, pc); RingInv(q', HolderAfter(pc')) && TestInv(q', HolderAfter(pc'))
  {
    hide Ring;
    if pc.PopTake? { RingTake(q.data, q.prod, q.cons, q.count, q.pushed, q.popped); }
  }

  lemma DestroyRing(q: Fields, pc: Pc)
    requires RingInv(q, pc) && TestInv(q, pc) && HasMutex(pc) && InDestroy(pc)
    requires q.consAmount >= 0 && Count(q, pc) >= 0
    ensures var (q', pc') := DestroyNext(q, pc); RingInv(q', HolderAfter(pc')) && TestInv(q', HolderAfter(pc'))
  {
    hide Ring;
  }

  /** A statement of the holder. */
  lemma HolderRing(q: Fields, pc: Pc, call: Call)
    requires RingInv(q, pc) && TestInv(q, pc) && HasMutex(pc) && q.consAmount >= 0
    ensures var (q', pc') := Next(q, pc, call); RingInv(q', HolderAfter(pc')) && TestInv(q', HolderAfter(pc'))
  {
    assert Count(q, pc) >= 0;
    hide RingInv, TestInv, PushNext, PopNext, DestroyNext;
    if InPush(pc) { PushRing(q, pc); }
    else if InDestroy(pc) { DestroyRing(q, pc); }
    else { PopRing(q, pc); }
  }

  /** Taking a job. */
  lemma TakeHands(q: Fields, pc: Pc)
    requires InBounds(q) && pc.PopTake?
    ensures var (q', pc') := PopNext(q, pc);
      HasMutex(pc') && q'.popped == q.popped + Carried(pc') && Carried(pc) == []
  {
  }

  /** Carrying it through the critical section, until it is returned. */
  lemma PopHands(q: Fields, pc: Pc, t: nat)
    requires InBounds(q) && HasMutex(pc) && InPop(pc) && !pc.PopTake?
    ensures var (q', pc') := PopNext(q, pc);
      q'.popped == q.popped && Carried(pc) == Jobs(Returned(t, pc)) + Carried(HolderAfter(pc'))
  {
  }

  /** A holder's statement takes the job it then carries, or returns the one it carried, or neither. */
  lemma HolderHands(q: Fields, pc: Pc, t: nat, call: Call)
    requires InBounds(q) && HasMutex(pc)
    ensures var (q', pc') := Next(q, pc, call);
      if pc.PopTake? then q'.popped == q.popped + Carried(HolderAfter(pc')) && Carried(pc) == [] && Returned(t, pc) == []
      else q'.popped == q.popped && Carried(pc) == Jobs(Returned(t, pc)) + Carried(HolderAfter(pc'))
  {
    hide PushNext, PopNext, DestroyNext, HasMutex, Carried;
    if pc.PopTake? { TakeHands(q, pc); }
    else if InPop(pc) { PopHands(q, pc, t); }
    else { OthersAbsent(q, pc, call); NoJobs(); IdleHasNone(); }
  }

  // ----- one step of one thread -----

  lemma OwnPc(s: State, t: nat)
    requires MutexInv(s.threads, s.lock) && DestroyInv(s)
    ensures HasMutex(s.Pc(t)) <==> s.lock == Some(t)
    ensures !s.Pc(t).PushRefused?
    ensures s.Pc(t).Idle? || t in s.threads
  {
  }

  lemma MutexMoves(threads: map<nat, Pc>, lock: Option<nat>, t: nat, pc: Pc, pc': Pc)
    requires MutexInv(threads, lock) && pc == (if t in threads then threads[t] else Idle) && !pc.PushRefused?
    requires HasMutex(pc') && !HasMutex(pc) ==> lock == None
    ensures MutexInv(threads[t := pc'], LockAfter(lock, t, pc, pc'))
  {
    hide HasMutex;
    IdleHasNone();
  }

  lemma IdleHasNone()
    ensures !HasMutex(Idle) && Carried(Idle) == [] && !Inside(Idle)
  {
  }

  lemma StepMutex(s: State, t: nat, call: Call)
    requires Inv(s) && Ready(s, t)
    ensures var s' := Step(s, t, call); MutexInv(s'.threads, s'.lock)
  {
    hide MutexInv, RingInv, TestInv, CountInv, HandsInv, DestroyInv, Next, HasMutex, LockAfter, Acquires;
    OwnPc(s, t);
    Bounds(s.queue, Holder(s));
    var pc' := Next(s.queue, s.Pc(t), call).1;
    if !HasMutex(s.Pc(t)) && HasMutex(pc') { EntersByLock(s.queue, s.Pc(t), call); }
    MutexMoves(s.threads, s.lock, t, s.Pc(t), pc');
  }

  lemma Bounds(q: Fields, h: Pc)
    requires RingInv(q, h)
    ensures InBounds(q)
  {
  }

  // ----- the consumer count -----

  lemma ConsumersUpdate(threads: map<nat, Pc>, t: nat, pc: Pc, pc': Pc)
    requires pc == if t in threads then threads[t] else Idle
    ensures |Consumers(threads[t := pc'])| - |Consumers(threads)| == Presence(pc') - Presence(pc)
  {
    hide Inside;
    IdleHasNone();
    var was, now := Consumers(threads), Consumers(threads[t := pc']);
    assert now == if Inside(pc') then was + {t} else was - {t};
  }

  lemma StepCount(s: State, t: nat, call: Call)
    requires Inv(s) && Ready(s, t)
    ensures CountInv(Step(s, t, call))
  {
    hide MutexInv, RingInv, TestInv, HandsInv, DestroyInv, Next, Presence, Consumers;
    Bounds(s.queue, Holder(s));
    var pc' := Next(s.queue, s.Pc(t), call).1;
    CountMoves(s.queue, s.Pc(t), call);
    ConsumersUpdate(s.threads, t, s.Pc(t), pc');
  }

  // ----- the ring and the jobs in hand -----

  /** The holder after a step: the thread itself if it is in a critical section, else whoever was before. */
  lemma HolderMoves(s: State, t: nat, call: Call)
    requires Inv(s) && Ready(s, t)
    ensures InBounds(s.queue)
    ensures var pc := s.Pc(t); var pc' := Next(s.queue, pc, call).1; var h := Holder(Step(s, t, call));
      if HasMutex(pc) then Holder(s) == pc && h == HolderAfter(pc')
      else if HasMutex(pc') then Holder(s) == Idle && h == pc' else h == Holder(s)
  {
    hide MutexInv, RingInv, TestInv, CountInv, HandsInv, DestroyInv, Next, HasMutex, Acquires;
    OwnPc(s, t);
    Bounds(s.queue, Holder(s));
    var pc' := Next(s.queue, s.Pc(t), call).1;
    if !HasMutex(s.Pc(t)) && HasMutex(pc') { EntersByLock(s.queue, s.Pc(t), call); }
  }

  lemma StepRing(s: State, t: nat, call: Call)
    requires Inv(s) && Ready(s, t)
    ensures var s' := Step(s, t, call); RingInv(s'.queue, Holder(s')) && TestInv(s'.queue, Holder(s'))
  {
    hide MutexInv, RingInv, TestInv, HandsInv, DestroyInv, Next, HasMutex, Holder;
    HolderMoves(s, t, call);
    var pc := s.Pc(t);
    if HasMutex(pc) {
      HolderRing(s.queue, pc, call);
    } else {
      Outside(s.queue, pc, call);
      var pc' := Next(s.queue, pc, call).1;
      if HasMutex(pc') {
        EntersAtTop(s.queue, pc, call);
        Locked(s.queue, pc');
      }
    }
  }

  lemma JobsConcat(a: seq<(nat, Job)>, b: seq<(nat, Job)>)
    ensures Jobs(a + b) == Jobs(a) + Jobs(b)
  {
  }

  lemma StepHands(s: State, t: nat, call: Call)
    requires Inv(s) && Ready(s, t)
    ensures HandsInv(Step(s, t, call))
  {
    hide MutexInv, RingInv, TestInv, CountInv, DestroyInv, Next, HasMutex, Holder, Carried, Returned, Jobs;
    HolderMoves(s, t, call);
    var pc := s.Pc(t);
    JobsConcat(s.returned, Returned(t, pc));
    if HasMutex(pc) {
      HolderHands(s.queue, pc, t, call);
      if pc.PopTake? { NoJobs(); }
    } else {
      Outside(s.queue, pc, call);
      NotReturning(t, pc);
      NoJobs();
      IdleHasNone();
    }
  }

  lemma NoJobs()
    ensures Jobs([]) == []
  {
  }

  lemma NotReturning(t: nat, pc: Pc)
    requires !HasMutex(pc)
    ensures Returned(t, pc) == []
  {
  }

  // ----- destruction -----

  /** What one statement does to the place of the thread ... */
  ghost predicate GuardedPlace(q: Fields, pc: Pc, q': Fields, pc': Pc, call: Call) {
    && (InPush(pc') ==> InPush(pc) || (pc.Idle? && call.Push?))
    && (InDestroy(pc') ==> InDestroy(pc) || (pc.Idle? && call.Destroy?))
    && (pc.Idle? && call.Destroy? ==> InDestroy(pc'))
    && (pc'.PushRefused? ==> InPush(pc) && q.flag)
    && (FlagSet(pc') ==> FlagSet(pc) || q'.flag)
    && (Emptied(pc') ==> Emptied(pc) || (Tests(q, pc) && q.count <= 0))
  }

  /** ... and to the destroy flag and the history. */
  ghost predicate GuardedQueue(q: Fields, pc: Pc, q': Fields) {
    && (q'.flag == q.flag || (q'.flag && InDestroy(pc)))
    && (q'.pushed == q.pushed || InPush(pc))
    && (q'.popped == q.popped || pc.PopTake?)
    && (Tests(q, pc) ==> q'.pushed == q.pushed && q'.popped == q.popped)
  }

  ghost predicate Guarded(q: Fields, pc: Pc, q': Fields, pc': Pc, call: Call) {
    GuardedPlace(q, pc, q', pc', call) && GuardedQueue(q, pc, q')
  }

  lemma PushGuarded(q: Fields, pc: Pc, call: Call)
    requires InBounds(q) && InPush(pc) && !pc.PushRefused?
    ensures var (q', pc') := PushNext(q, pc); Guarded(q, pc, q', pc', call)
  {
  }

  lemma EnterPlace(q: Fields, pc: Pc, call: Call)
    requires Entering(pc)
    ensures var (q', pc') := PopEnterNext(q, pc); GuardedPlace(q, pc, q', pc', call)
  {
  }

  lemma LeavePlace(q: Fields, pc: Pc, call: Call)
    requires InBounds(q) && InPop(pc) && !Entering(pc)
    ensures var (q', pc') := PopLeaveNext(q, pc); GuardedPlace(q, pc, q', pc', call)
  {
  }

  lemma PopPlace(q: Fields, pc: Pc, call: Call)
    requires InBounds(q) && InPop(pc)
    ensures var (q', pc') := PopNext(q, pc); GuardedPlace(q, pc, q', pc', call)
  {
    hide PopEnterNext, PopLeaveNext, GuardedPlace;
    if Entering(pc) { EnterPlace(q, pc, call); } else { LeavePlace(q, pc, call); }
  }

  lemma PopQueue(q: Fields, pc: Pc)
    requires InBounds(q) && InPop(pc)
    ensures GuardedQueue(q, pc, PopNext(q, pc).0)
  {
  }

  lemma PopGuarded(q: Fields, pc: Pc, call: Call)
    requires InBounds(q) && InPop(pc)
    ensures var (q', pc') := PopNext(q, pc); Guarded(q, pc, q', pc', call)
  {
    hide PopNext, GuardedPlace, GuardedQueue;
    PopPlace(q, pc, call);
    PopQueue(q, pc);
  }

  lemma DestroyGuarded(q: Fields, pc: Pc, call: Call)
    requires InDestroy(pc)
    ensures var (q', pc') := DestroyNext(q, pc); Guarded(q, pc, q', pc', call)
  {
  }

  lemma NextGuarded(q: Fields, pc: Pc, call: Call)
    requires InBounds(q) && !pc.PushRefused?
    ensures var (q', pc') := Next(q, pc, call); Guarded(q, pc, q', pc', call)
  {
    hide PushNext, PopNext, DestroyNext;
    if InPush(pc) { hide Guarded; PushGuarded(q, pc, call); }
    else if InDestroy(pc) { hide Guarded; DestroyGuarded(q, pc, call); }
    else if !pc.Idle? { hide Guarded; PopGuarded(q, pc, call); }
  }

  /** With the queue empty and no push under way, everything pushed has been popped. */
  lemma EmptyMeansTaken(q: Fields, h: Pc)
    requires RingInv(q, h) && Count(q, h) <= 0
    ensures q.pushed == q.popped
  {
  }

  lemma TestsAtHolder(s: State, t: nat)
    requires Inv(s)
    ensures Tests(s.queue, s.Pc(t)) && s.queue.count <= 0 ==> s.queue.pushed == s.queue.popped
    ensures s.Pc(t).PopTake? ==> s.queue.pushed != s.queue.popped
  {
    hide CountInv, HandsInv, Ring;
    var h := Holder(s);
    if s.Pc(t).PopTake? { TakenIsNot(s.queue, h); }
    if Tests(s.queue, s.Pc(t)) && s.queue.count <= 0 { EmptyMeansTaken(s.queue, h); }
  }

  lemma TakenIsNot(q: Fields, h: Pc)
    requires RingInv(q, h) && Count(q, h) > 0
    ensures q.pushed != q.popped
  {
  }

  /** The flag, once set, refuses nobody: every push is over by then. */
  lemma KeepDestroyInv(s: State, s': State, t: nat, call: Call)
    requires DestroyInv(s) && Guarded(s.queue, s.Pc(t), s'.queue, s'.Pc(t), call) && Allowed(s, t, call)
    requires s'.threads == s.threads[t := s'.Pc(t)] && s'.called == (s.called || (s.Pc(t).Idle? && call.Destroy?))
    requires Tests(s.queue, s.Pc(t)) && s.queue.count <= 0 ==> s.queue.pushed == s.queue.popped
    requires s.Pc(t).PopTake? ==> s.queue.pushed != s.queue.popped
    ensures DestroyInv(s')
  {
  }

  lemma StepDestroy(s: State, t: nat, call: Call)
    requires Inv(s) && Ready(s, t) && Allowed(s, t, call)
    ensures DestroyInv(Step(s, t, call))
  {
    hide MutexInv, RingInv, TestInv, CountInv, HandsInv, DestroyInv, Next, Guarded, Allowed, LockAfter, Returned;
    OwnPc(s, t);
    Bounds(s.queue, Holder(s));
    TestsAtHolder(s, t);
    NextGuarded(s.queue, s.Pc(t), call);
    KeepDestroyInv(s, Step(s, t, call), t, call);
  }

  /** Every step of every thread keeps the invariant. */
  lemma StepInv(s: State, t: nat, call: Call)
    requires Inv(s) && Ready(s, t) && Allowed(s, t, call)
    ensures InBounds(s.queue) && Inv(Step(s, t, call))
  {
    hide MutexInv, RingInv, TestInv, CountInv, HandsInv, DestroyInv, Step, Ready, Allowed, Holder;
    Bounds(s.queue, Holder(s));
    StepMutex(s, t, call);
    StepRing(s, t, call);
    StepCount(s, t, call);
    StepHands(s, t, call);
    StepDestroy(s, t, call);
  }

  // ----- runs -----

  /** Thread `t` moves.  An access outside the ring would leave anything behind; none ever happens. */
  ghost predicate Move(s: State, s': State, t: nat, call: Call) {
    && Ready(s, t) && Allowed(s, t, call)
    && (InBounds(s.queue) ==> s' == Step(s, t, call))
  }

  /** A run: any interleaving of any threads, from a fresh queue. */
  ghost predicate IsRun(states: seq<State>, moves: seq<(nat, Call)>) {
    && |states| == |moves| + 1 && Initial(states[0])
    && forall i :: 0 <= i < |moves| ==> Move(states[i], states[i + 1], moves[i].0, moves[i].1)
  }

  lemma {:induction false} RunInv(states: seq<State>, moves: seq<(nat, Call)>)
    requires IsRun(states, moves)
    ensures forall s :: s in states ==> Inv(s)
    decreases |moves|
  {
    hide Inv, Initial, Move;
    var n := |moves|;
    if n == 0 {
      InitialInv(states[0]);
    } else {
      var before := states[..n];
      assert IsRun(before, moves[..n - 1]);
      RunInv(before, moves[..n - 1]);
      assert states[n - 1] in before;
      MoveInv(states[n - 1], states[n], moves[n - 1].0, moves[n - 1].1);
    }
  }

  lemma MoveInv(s: State, s': State, t: nat, call: Call)
    requires Inv(s) && Move(s, s', t, call)
    ensures Inv(s')
  {
    hide Inv, Step, Ready, Allowed;
    StepInv(s, t, call);
  }

  /** In every state of every run, what has been popped is what was pushed first, in that order. */
  lemma DeliveredInOrder(states: seq<State>, moves: seq<(nat, Call)>, s: State)
    requires IsRun(states, moves) && s in states
    ensures s.queue.popped <= s.queue.pushed
  {
    hide IsRun, MutexInv, CountInv, TestInv, HandsInv, DestroyInv;
    RunInv(states, moves);
  }

  /** Every successful pop returns a job of its own: the n-th to return returns the n-th job pushed. */
  lemma PopReturnsItsOwn(states: seq<State>, moves: seq<(nat, Call)>, i: nat)
    requires IsRun(states, moves) && i < |moves|
    requires states[i].Pc(moves[i].0).PopUnlock? && states[i].Pc(moves[i].0).result.Some?
    ensures var (s, s', t) := (states[i], states[i + 1], moves[i].0);
      && |s.returned| < |s.queue.pushed|
      && s'.returned == s.returned + [(t, s.Pc(t).result.value)]
      && s.Pc(t).result.value == s.queue.pushed[|s.returned|]
  {
    hide Initial, Inv, Ready, Allowed;
    RunInv(states, moves);
    var (s, t) := (states[i], moves[i].0);
    InvBounds(s);
    assert Move(s, states[i + 1], t, moves[i].1);
    HeldIsNext(s, t);
  }

  lemma InvBounds(s: State)
    requires Inv(s)
    ensures InBounds(s.queue) && s.queue.popped <= s.queue.pushed
  {
    hide MutexInv, CountInv, TestInv, HandsInv, DestroyInv;
  }

  lemma HeldIsNext(s: State, t: nat)
    requires Inv(s) && s.Pc(t).PopUnlock? && s.Pc(t).result.Some?
    ensures |s.returned| < |s.queue.pushed| && s.Pc(t).result.value == s.queue.pushed[|s.returned|]
  {
    hide CountInv, TestInv, RingInv;
    InvBounds(s);
    OwnPc(s, t);
    assert s.queue.popped == Jobs(s.returned) + [s.Pc(t).result.value];
  }

  /** In every state of every run, the jobs returned are the jobs pushed first, in that order. */
  lemma ReturnedInOrder(states: seq<State>, moves: seq<(nat, Call)>, s: State)
    requires IsRun(states, moves) && s in states
    ensures Jobs(s.returned) <= s.queue.pushed
  {
    hide IsRun, Jobs, Inv;
    RunInv(states, moves);
    InvBounds(s);
    HandsIs(s);
  }

  lemma HandsIs(s: State)
    requires Inv(s)
    ensures s.queue.popped == Jobs(s.returned) + Carried(Holder(s))
  {
    hide MutexInv, RingInv, CountInv, TestInv, DestroyInv, Jobs, Carried, Holder;
  }

  /** Whenever the mutex is free, the ring holds exactly the jobs pushed and not yet popped, oldest first. */
  lemma RingHolds(states: seq<State>, moves: seq<(nat, Call)>, s: State)
    requires IsRun(states, moves) && s in states && s.lock == None
    ensures var q := s.queue;
      && 0 <= q.cons < |q.data| && 0 <= q.count <= |q.data| && q.prod == (q.cons + q.count) % |q.data|
      && q.pushed == q.popped + seq(q.count, i requires 0 <= i < q.count => q.data[(q.cons + i) % |q.data|])
  {
    hide IsRun, MutexInv, CountInv, TestInv, HandsInv, DestroyInv;
    RunInv(states, moves);
    var q := s.queue;
    var n, k := |q.data|, |q.popped|;
    SlotWraps(q.cons, q.count, n);
    var kept := seq(q.count, i requires 0 <= i < q.count => q.data[(q.cons + i) % n]);
    assert q.pushed == q.popped + q.pushed[k..];
    assert |kept| == |q.pushed[k..]|;
    forall i | 0 <= i < q.count
      ensures kept[i] == q.pushed[k..][i]
    {
      SlotWraps(q.cons, i, n);
      assert q.data[Slot(q.cons, i, n)] == q.pushed[k + i];
    }
    assert kept == q.pushed[k..];
  }

  lemma Multiples(q: int, n: int)
    requires n > 0
    ensures q >= 2 ==> q * n >= 2 * n
    ensures q <= -1 ==> q * n <= -n
  {
  }

  lemma SlotWraps(start: int, i: int, n: int)
    requires 0 <= start < n && 0 <= i <= n
    ensures Slot(start, i, n) == (start + i) % n
  {
    var x, q := start + i, (start + i) / n;
    assert x == q * n + x % n;
    Multiples(q, n);
  }

  /** `cons_amount` counts the consumers between their counting and uncounting, waiting or running. */
  lemma ConsumersCounted(states: seq<State>, moves: seq<(nat, Call)>, s: State)
    requires IsRun(states, moves) && s in states
    ensures s.queue.consAmount == |Consumers(s.threads)|
  {
    hide IsRun;
    RunInv(states, moves);
  }

  /** When destroy has left its wait loop, no consumer is inside and every pushed job has been popped. */
  lemma DestroyedEmpty(states: seq<State>, moves: seq<(nat, Call)>, s: State, t: nat)
    requires IsRun(states, moves) && s in states && t in s.threads
    ensures s.threads[t].DestroyUnlock? ==> forall u :: u in s.threads ==> !Inside(s.threads[u])
    ensures s.threads[t].DestroyUnlock? || s.threads[t].DestroyFree? || s.threads[t].Destroyed? ==>
      s.queue.pushed == s.queue.popped
  {
    hide IsRun, RingInv, HandsInv;
    RunInv(states, moves);
    if s.threads[t].DestroyUnlock? {
      assert Consumers(s.threads) == {};
      forall u | u in s.threads
        ensures !Inside(s.threads[u])
      {
        assert u !in Consumers(s.threads);
      }
    }
  }

  /** A pop fails only after destroy was called and every job was delivered. */
  lemma PopFailsWhenDrained(states: seq<State>, moves: seq<(nat, Call)>, s: State, t: nat)
    requires IsRun(states, moves) && s in states && t in s.threads
    requires s.threads[t].PopGiveUp? || s.threads[t] == PopUnlock(None)
    ensures s.called && s.queue.flag && s.queue.pushed == s.queue.popped
  {
    hide IsRun, MutexInv, RingInv, CountInv, TestInv, HandsInv;
    RunInv(states, moves);
  }

  /** At most one thread is between taking and releasing the mutex, and no push is ever refused. */
  lemma MutualExclusion(states: seq<State>, moves: seq<(nat, Call)>, s: State, t: nat, u: nat)
    requires IsRun(states, moves) && s in states && t in s.threads && u in s.threads
    ensures HasMutex(s.threads[t]) && HasMutex(s.threads[u]) ==> t == u
    ensures !s.threads[t].PushRefused?
  {
    hide IsRun, RingInv, CountInv, TestInv, HandsInv;
    RunInv(states, moves);
  }

  // ----- when a thread waits -----

  /** The tests of the three wait loops and of pop's decision, in terms of what has been pushed and popped. */
  lemma WaitsExactly(states: seq<State>, moves: seq<(nat, Call)>, i: nat)
    requires IsRun(states, moves) && i < |moves|
    ensures var (q, pc, pc') := (states[i].queue, states[i].Pc(moves[i].0), states[i + 1].Pc(moves[i].0));
      var empty := q.pushed == q.popped;
      && (pc.PushTest? ==> pc' == if |q.pushed| - |q.popped| == |q.data| then PushWait(pc.job) else PushStore(pc.job))
      && (pc.PopTest? ==> pc' == if empty && !q.flag then PopWait else PopDecide)
      && (pc.PopDecide? ==> pc' == if empty then PopLeaveEmpty else PopTake)
      && (pc.DestroyTest? ==>
           pc' == if !empty || exists u :: u in states[i].threads && Inside(states[i].threads[u]) then DestroyWait else DestroyUnlock)
  {
    hide Initial, Inv, Ready, Allowed;
    RunInv(states, moves);
    var (s, t) := (states[i], moves[i].0);
    assert Move(s, states[i + 1], t, moves[i].1);
    InvBounds(s);
    TestsNext(s, t, moves[i].1);
  }

  lemma TestsNext(s: State, t: nat, call: Call)
    requires Inv(s) && InBounds(s.queue)
    ensures var (q, pc, pc') := (s.queue, s.Pc(t), Next(s.queue, s.Pc(t), call).1);
      var empty := q.pushed == q.popped;
      && (pc.PushTest? ==> pc' == if |q.pushed| - |q.popped| == |q.data| then PushWait(pc.job) else PushStore(pc.job))
      && (pc.PopTest? ==> pc' == if empty && !q.flag then PopWait else PopDecide)
      && (pc.PopDecide? ==> pc' == if empty then PopLeaveEmpty else PopTake)
      && (pc.DestroyTest? ==>
           pc' == if !empty || exists u :: u in s.threads && Inside(s.threads[u]) then DestroyWait else DestroyUnlock)
  {
    hide Inv;
    var pc := s.Pc(t);
    if pc.PushTest? || pc.PopTest? || pc.PopDecide? || pc.DestroyTest? { TestsAre(s, t); }
  }

  lemma TestsAre(s: State, t: nat)
    requires Inv(s) && (s.Pc(t).PushTest? || s.Pc(t).PopTest? || s.Pc(t).PopDecide? || s.Pc(t).DestroyTest?)
    ensures var q := s.queue;
      && q.count == |q.pushed| - |q.popped| && 0 <= q.count <= |q.data| && (q.count == 0 <==> q.pushed == q.popped)
      && (s.Pc(t).PopDecide? ==> q.count > 0 || q.flag)
      && q.consAmount >= 0 && (q.consAmount > 0 <==> exists u :: u in s.threads && Inside(s.threads[u]))
  {
    hide HandsInv;
    OwnPc(s, t);
    assert Holder(s) == s.Pc(t);
    var inside := Consumers(s.threads);
    if inside == {} {
      assert forall u :: u in s.threads && Inside(s.threads[u]) ==> u in inside;
    } else {
      var u :| u in inside;
    }
  }

  /** With the mutex free every thread can move, and otherwise its holder can. */
  lemma NobodyStuck(states: seq<State>, moves: seq<(nat, Call)>, s: State, t: nat)
    requires IsRun(states, moves) && s in states && !s.Pc(t).Destroyed?
    ensures s.lock == None || s.lock == Some(t) ==> Ready(s, t)
  {
    hide IsRun, Inv, Ready;
    RunInv(states, moves);
    if s.lock == None || s.lock == Some(t) { MutexReady(s, t); }
  }

  lemma MutexReady(s: State, t: nat)
    requires Inv(s) && !s.Pc(t).Destroyed? && (s.lock == None || s.lock == Some(t))
    ensures Ready(s, t)
  {
    hide RingInv, TestInv, CountInv, HandsInv;
    OwnPc(s, t);
  }

  // ----- a call with nobody else moving -----

  /** What `n` statements of one thread lead to. */
  function After(q: Fields, pc: Pc, n: nat): (Fields, Pc)
    decreases n
  {
    if n == 0 || pc.Idle? || !InBounds(q) then (q, pc)
    else var (q', pc') := Next(q, pc, Pop); After(q', pc', n - 1)
  }

  lemma AfterNext(q: Fields, pc: Pc, n: nat)
    requires InBounds(q) && !pc.Idle? && n > 0
    ensures After(q, pc, n) == After(Next(q, pc, Pop).0, Next(q, pc, Pop).1, n - 1)
  {
    hide Next;
  }

  lemma AfterNone(q: Fields, pc: Pc)
    ensures After(q, pc, 0) == (q, pc)
  {
  }

  /** The position behind `i`, in a ring of `n`. */
  function Behind(i: int, n: int): int
    requires n > 0
  {
    (i + 1) % n
  }

  /** The queue with one more job. */
  function Pushed(q: Fields, job: Job): Fields
    requires InBounds(q)
  {
    q.(data := q.data[q.prod := job], prod := Behind(q.prod, |q.data|), count := q.count + 1, pushed := q.pushed + [job])
  }

  /** The queue without its oldest job. */
  function Popped(q: Fields): Fields
    requires InBounds(q)
  {
    q.(cons := Behind(q.cons, |q.data|), count := q.count - 1, popped := q.popped + [q.data[q.cons]])
  }

  lemma NextSlotWraps(i: int, n: int)
    requires 0 <= i < n
    ensures NextSlot(i, n) == Behind(i, n) && 0 <= NextSlot(i, n) < n
  {
    SlotWraps(i, 1, n);
  }

  /** From the store to the end of push. */
  lemma PushEnds(q: Fields, job: Job)
    requires InBounds(q)
    ensures After(q, PushStore(job), 4) == (Pushed(q, job), Idle)
  {
    hide PopEnterNext, PopLeaveNext, DestroyNext, After, NextSlot, Behind;
    NextSlotWraps(q.prod, |q.data|);
    var q1 := q.(data := q.data[q.prod := job], pushed := q.pushed + [job]);
    var q2 := q1.(count := q.count + 1);
    AfterNext(q, PushStore(job), 4);
    AfterNext(q1, PushCount, 3);
    AfterNext(q2, PushMove, 2);
    AfterNext(Pushed(q, job), PushUnlock, 1);
    AfterNone(Pushed(q, job), Idle);
  }

  /** A push, or one that wakes, stores its job behind the newest and returns; on a full queue it waits. */
  lemma PushAlone(q: Fields, job: Job)
    requires InBounds(q) && !q.flag
    ensures q.count < |q.data| ==> After(q, PushStart(job), 7) == After(q, PushWait(job), 7) == (Pushed(q, job), Idle)
    ensures q.count >= |q.data| ==> After(q, PushStart(job), 3) == After(q, PushWait(job), 3) == (q, PushWait(job))
  {
    hide PopEnterNext, PopLeaveNext, DestroyNext, After, Pushed;
    PushEnds(q, job);
    AfterNone(q, PushWait(job));
    forall n | n == 3 || n == 7
      ensures After(q, PushStart(job), n) == After(q, PushTest(job), n - 2)
      ensures After(q, PushWait(job), n) == After(q, PushTest(job), n - 2)
      ensures After(q, PushTest(job), n - 2) == After(q, if |q.data| <= q.count then PushWait(job) else PushStore(job), n - 3)
    {
      AfterNext(q, PushStart(job), n);
      AfterNext(q, PushLock(job), n - 1);
      AfterNext(q, PushWait(job), n);
      AfterNext(q, PushWake(job), n - 1);
      AfterNext(q, PushTest(job), n - 2);
    }
  }

  // The statements of pop and destroy, one by one.

  lemma TakeSteps(q: Fields, job: Job)
    requires InBounds(q)
    ensures Next(q, PopTake, Pop) == (q.(popped := q.popped + [q.data[q.cons]]), PopCount(q.data[q.cons]))
    ensures Next(q, PopCount(job), Pop) == (q.(count := q.count - 1), PopMove(job))
    ensures Next(q, PopMove(job), Pop) == (q.(cons := NextSlot(q.cons, |q.data|)), PopLeave(job))
    ensures Next(q, PopLeave(job), Pop) == (q.(consAmount := q.consAmount - 1), PopUnlock(Some(job)))
  {
    hide NextSlot;
  }

  lemma TestSteps(q: Fields)
    requires InBounds(q)
    ensures Next(q, PopTest, Pop) == (q, if q.count <= 0 && !q.flag then PopWait else PopDecide)
    ensures Next(q, PopDecide, Pop) == (q, if q.count <= 0 && q.flag then PopLeaveEmpty else PopTake)
    ensures Next(q, PopLeaveEmpty, Pop) == (q.(consAmount := q.consAmount - 1), PopUnlock(None))
    ensures Next(q, PopUnlock(None), Pop) == (q, Idle)
  {
  }

  lemma ProbeSteps(q: Fields)
    requires InBounds(q)
    ensures Next(q, PopStart, Pop) == (q, if q.consAmount == 0 then PopStartFlag else PopLock)
    ensures Next(q, PopStartFlag, Pop) == (q, if q.flag then PopStartCount else PopLock)
    ensures Next(q, PopStartCount, Pop) == (q, if q.count == 0 then PopGiveUp else PopLock)
    ensures Next(q, PopGiveUp, Pop) == (q, Idle)
  {
    hide PopLeaveNext, PushNext, DestroyNext;
  }

  lemma EnterSteps(q: Fields)
    requires InBounds(q)
    ensures Next(q, PopLock, Pop) == (q, PopEnter)
    ensures Next(q, PopEnter, Pop) == (q.(consAmount := q.consAmount + 1), PopTest)
    ensures Next(q, PopWait, Pop) == (q, PopWake) && Next(q, PopWake, Pop) == (q, PopTest)
  {
    hide PopLeaveNext, PushNext, DestroyNext;
  }

  lemma DestroyStarts(q: Fields)
    requires InBounds(q)
    ensures Next(q, DestroyLock, Pop) == (q, DestroyFlag)
    ensures Next(q, DestroyFlag, Pop) == (q.(flag := true), DestroyTest)
  {
    hide PopLeaveNext, PushNext, PopEnterNext;
  }

  lemma DestroySteps(q: Fields)
    requires InBounds(q)
    ensures Next(q, DestroyTest, Pop) == (q, if q.count > 0 || q.consAmount > 0 then DestroyWait else DestroyUnlock)
    ensures Next(q, DestroyWait, Pop) == (q, DestroyWake) && Next(q, DestroyWake, Pop) == (q, DestroyTest)
    ensures Next(q, DestroyUnlock, Pop) == (q, DestroyFree) && Next(q, DestroyFree, Pop) == (q, Destroyed)
  {
    hide PopLeaveNext, PushNext, PopEnterNext;
  }

  /** From the take to the return of pop. */
  lemma PopTakes(q: Fields)
    requires InBounds(q)
    ensures After(q, PopTake, 4) == (Popped(q).(consAmount := q.consAmount - 1), PopUnlock(Some(q.data[q.cons])))
  {
    hide Next, After, Behind;
    var job := q.data[q.cons];
    TakeSteps(q, job);
    AfterNext(q, PopTake, 4);
    PopTaken(q.(popped := q.popped + [job]), job);
  }

  lemma PopTaken(q: Fields, job: Job)
    requires InBounds(q)
    ensures After(q, PopCount(job), 3) ==
      (q.(cons := Behind(q.cons, |q.data|), count := q.count - 1, consAmount := q.consAmount - 1), PopUnlock(Some(job)))
  {
    hide Next, After, Behind;
    TakeSteps(q, job);
    AfterNext(q, PopCount(job), 3);
    PopMoved(q.(count := q.count - 1), job);
  }

  lemma PopMoved(q: Fields, job: Job)
    requires InBounds(q)
    ensures After(q, PopMove(job), 2) ==
      (q.(cons := Behind(q.cons, |q.data|), consAmount := q.consAmount - 1), PopUnlock(Some(job)))
  {
    hide Next, After, NextSlot, Behind;
    NextSlotWraps(q.cons, |q.data|);
    TakeSteps(q, job);
    AfterNext(q, PopMove(job), 2);
    PopLeft(q.(cons := Behind(q.cons, |q.data|)), job);
  }

  lemma PopLeft(q: Fields, job: Job)
    requires InBounds(q)
    ensures After(q, PopLeave(job), 1) == (q.(consAmount := q.consAmount - 1), PopUnlock(Some(job)))
  {
    hide Next, After, NextSlot;
    TakeSteps(q, job);
    AfterNext(q, PopLeave(job), 1);
    AfterNone(q.(consAmount := q.consAmount - 1), PopUnlock(Some(job)));
  }

  /** A counted consumer at its test takes the oldest job, leaves with nothing from an empty queue that is to
      be destroyed, and waits at any other empty queue. */
  lemma PopInside(q: Fields)
    requires InBounds(q)
    ensures q.count > 0 ==>
      After(q, PopTest, 6) == (Popped(q).(consAmount := q.consAmount - 1), PopUnlock(Some(q.data[q.cons])))
    ensures q.count <= 0 && q.flag ==> After(q, PopTest, 3) == (q.(consAmount := q.consAmount - 1), PopUnlock(None))
    ensures q.count <= 0 && !q.flag ==> After(q, PopTest, 1) == (q, PopWait)
  {
    hide Next, After, Popped;
    TestSteps(q);
    if q.count > 0 {
      PopTakes(q);
      AfterNext(q, PopTest, 6);
      AfterNext(q, PopDecide, 5);
    } else if q.flag {
      AfterNext(q, PopTest, 3);
      AfterNext(q, PopDecide, 2);
      AfterNext(q, PopLeaveEmpty, 1);
      AfterNone(q.(consAmount := q.consAmount - 1), PopUnlock(None));
    } else {
      AfterNext(q, PopTest, 1);
      AfterNone(q, PopWait);
    }
  }

  /** A consumer that finds nobody inside, the flag set and the queue empty gives up without the mutex. */
  lemma PopGivesUp(q: Fields)
    requires InBounds(q) && q.consAmount == 0 && q.flag && q.count == 0
    ensures After(q, PopStart, 4) == (q, Idle) && After(q, PopStart, 3) == (q, PopGiveUp)
  {
    hide Next, After;
    ProbeSteps(q);
    forall n | n == 3 || n == 4
      ensures After(q, PopStart, n) == After(q, PopGiveUp, n - 3)
    {
      AfterNext(q, PopStart, n);
      AfterNext(q, PopStartFlag, n - 1);
      AfterNext(q, PopStartCount, n - 2);
    }
    AfterNext(q, PopGiveUp, 1);
    AfterNone(q, PopGiveUp);
    AfterNone(q, Idle);
  }

  /** Every other one takes the mutex, is counted and comes to its test, as does one that wakes. */
  lemma PopEnters(q: Fields, n: nat)
    requires InBounds(q)
    ensures !(q.consAmount == 0 && q.flag && q.count == 0) ==>
      After(q, PopStart, n + if q.consAmount != 0 then 3 else if !q.flag then 4 else 5)
        == After(q.(consAmount := q.consAmount + 1), PopTest, n)
    ensures After(q, PopWait, n + 2) == After(q, PopTest, n)
  {
    hide Next, After;
    ProbeSteps(q);
    EnterSteps(q);
    var k := n + if q.consAmount != 0 then 3 else if !q.flag then 4 else 5;
    AfterNext(q, PopStart, k);
    AfterNext(q, PopStartFlag, k - 1);
    AfterNext(q, PopStartCount, k - 2);
    AfterNext(q, PopLock, n + 2);
    AfterNext(q, PopEnter, n + 1);
    AfterNext(q, PopWait, n + 2);
    AfterNext(q, PopWake, n + 1);
  }

  /** Destroy sets the flag and waits until the queue is empty and nobody is inside. */
  lemma DestroyAlone(q: Fields)
    requires InBounds(q)
    ensures var (q', next) := (q.(flag := true), if q.count <= 0 && q.consAmount <= 0 then DestroyUnlock else DestroyWait);
      && After(q, DestroyLock, 3) == (q', next) && After(q, DestroyWait, 3) == (q, next)
      && After(q, DestroyUnlock, 2) == (q, Destroyed)
  {
    hide Next, After;
    var q', next := q.(flag := true), if q.count <= 0 && q.consAmount <= 0 then DestroyUnlock else DestroyWait;
    DestroyStarts(q);
    DestroySteps(q);
    DestroySteps(q');
    AfterNext(q, DestroyLock, 3);
    AfterNext(q, DestroyFlag, 2);
    AfterNext(q', DestroyTest, 1);
    AfterNone(q', next);
    AfterNext(q, DestroyWait, 3);
    AfterNext(q, DestroyWake, 2);
    AfterNext(q, DestroyTest, 1);
    AfterNone(q, next);
    AfterNext(q, DestroyUnlock, 2);
    AfterNext(q, DestroyFree, 1);
    AfterNone(q, Destroyed);
  }

  // ----- what a caller can rely on -----

  /** A thread stays in the call it is in until the call ends. */
  lemma StaysInCall(q: Fields, pc: Pc, call: Call)
    requires InBounds(q)
    ensures InPush(pc) || (pc.Idle? && call.Push?) ==> InPush(Next(q, pc, call).1) || Next(q, pc, call).1.Idle?
    ensures InDestroy(pc) || (pc.Idle? && call.Destroy?) ==> InDestroy(Next(q, pc, call).1)
  {
    hide PopEnterNext, PopLeaveNext;
  }

  lemma StaysInPop(q: Fields, pc: Pc, call: Call)
    requires InBounds(q) && (InPop(pc) || (pc.Idle? && call.Pop?))
    ensures InPop(Next(q, pc, call).1) || Next(q, pc, call).1.Idle?
  {
    hide PushNext, DestroyNext;
  }

  /** A pop ends, and is then back with its caller, with a job or without one. */
  lemma PopEnds(q: Fields, pc: Pc, call: Call)
    requires InBounds(q) && (pc.PopUnlock? || pc.PopGiveUp?)
    ensures Next(q, pc, call).1 == Idle
  {
  }

  /** Destroy was called and everything pushed has been popped. */
  ghost predicate Drained(s: State) {
    s.called && s.queue.pushed == s.queue.popped
  }

  lemma FailsDrained(s: State, t: nat)
    requires Inv(s) && (s.Pc(t).PopGiveUp? || s.Pc(t) == PopUnlock(None))
    ensures Drained(s)
  {
    hide MutexInv, RingInv, CountInv, TestInv, HandsInv;
  }

  /** A drained queue stays drained. */
  lemma DrainedStays(s: State, t: nat, call: Call)
    requires Inv(s) && Drained(s)
    ensures InBounds(s.queue) && Drained(Step(s, t, call))
  {
    hide MutexInv, RingInv, TestInv, CountInv, HandsInv, Next, GuardedPlace, LockAfter, Returned;
    OwnPc(s, t);
    Bounds(s.queue, Holder(s));
    TestsAtHolder(s, t);
    NextGuarded(s.queue, s.Pc(t), call);
  }

  /** Only a pushing thread adds to the jobs pushed. */
  lemma OnlyPushPushes(q: Fields, pc: Pc, call: Call)
    requires InBounds(q) && !InPush(pc)
    ensures Next(q, pc, call).0.pushed == q.pushed
  {
  }

  /** A push before, and after, its job is stored. */
  predicate Pushing(pc: Pc, job: Job) {
    pc == PushStart(job) || pc == PushLock(job) || pc == PushTest(job) || pc == PushWait(job) || pc == PushWake(job) ||
    pc == PushStore(job)
  }

  predicate Stored(pc: Pc) { pc.PushCount? || pc.PushMove? || pc.PushUnlock? }

  lemma PushProgress(q: Fields, pc: Pc, job: Job)
    requires InBounds(q) && (Pushing(pc, job) || Stored(pc)) && !q.flag
    ensures var (q', pc') := PushNext(q, pc);
      if pc.PushUnlock? then pc' == Idle && q'.pushed == q.pushed
      else if pc.PushStore? then Stored(pc') && q'.pushed == q.pushed + [job]
      else q'.pushed == q.pushed && (if Stored(pc) then Stored(pc') else Pushing(pc', job))
  {
  }

  // ----- the queue in place -----

  /** The queue as the program keeps it: every step of a thread updates the fields and the ring in place. */
  class Queue {
    const data: array<Job>
    var prod: int
    var cons: int
    var count: int
    var flag: bool
    var consAmount: int
    ghost var pushed: seq<Job>
    ghost var popped: seq<Job>
    var lock: Option<nat>
    var threads: map<nat, Pc>
    ghost var called: bool
    ghost var returned: seq<(nat, Job)>

    ghost function Content(): Fields
      reads this, data
    {
      Fields(data[..], prod, cons, count, flag, consAmount, pushed, popped)
    }

    ghost function View(): State
      reads this, data
    {
      State(Content(), lock, threads, called, returned)
    }

    constructor (capacity: nat)
      requires capacity >= 1
      ensures Initial(View()) && data.Length == capacity && fresh(data)
    {
      data := new Job[capacity];
      prod, cons, count, flag, consAmount := 0, 0, 0, false, 0;
      lock, threads := None, map[];
      called, pushed, popped, returned := false, [], [], [];
    }

    method RunPush(pc: Pc) returns (pc': Pc)
      requires InBounds(Content())
      modifies this`prod, this`count, this`pushed, data
      ensures (Content(), pc') == PushNext(old(Content()), pc)
    {
      pc' := pc;
      match pc
      case PushStart(j) => pc' := if flag then PushRefused else PushLock(j);
      case PushRefused => pc' := Idle;
      case PushLock(j) => pc' := PushTest(j);
      case PushTest(j) => pc' := if data.Length <= count then PushWait(j) else PushStore(j);
      case PushWait(j) => pc' := PushWake(j);
      case PushWake(j) => pc' := PushTest(j);
      case PushStore(j) =>
        data[prod] := j;
        pushed := pushed + [j];
        pc' := PushCount;
      case PushCount =>
        count := count + 1;
        pc' := PushMove;
      case PushMove =>
        if prod + 1 >= data.Length { prod := 0; } else { prod := prod + 1; }
        pc' := PushUnlock;
      case PushUnlock => pc' := Idle;
      case _ =>
    }

    method RunPopEnter(pc: Pc) returns (pc': Pc)
      modifies this`consAmount
      ensures (Content(), pc') == PopEnterNext(old(Content()), pc)
    {
      pc' := pc;
      match pc
      case PopStart => pc' := if consAmount == 0 then PopStartFlag else PopLock;
      case PopStartFlag => pc' := if flag then PopStartCount else PopLock;
      case PopStartCount => pc' := if count == 0 then PopGiveUp else PopLock;
      case PopGiveUp => pc' := Idle;
      case PopLock => pc' := PopEnter;
      case PopEnter =>
        consAmount := consAmount + 1;
        pc' := PopTest;
      case PopTest => pc' := if count <= 0 && !flag then PopWait else PopDecide;
      case PopWait => pc' := PopWake;
      case PopWake => pc' := PopTest;
      case _ =>
    }

    method RunPopTake(pc: Pc) returns (pc': Pc)
      requires InBounds(Content()) && (pc.PopTake? || pc.PopCount? || pc.PopMove?)
      modifies this`cons, this`count, this`popped
      ensures (Content(), pc') == PopLeaveNext(old(Content()), pc)
    {
      if pc.PopTake? {
        pc' := PopCount(data[cons]);
        popped := popped + [data[cons]];
      } else if pc.PopCount? {
        count := count - 1;
        pc' := PopMove(pc.taken);
      } else {
        if cons + 1 >= data.Length { cons := 0; } else { cons := cons + 1; }
        pc' := PopLeave(pc.taken);
      }
    }

    method RunPopLeave(pc: Pc) returns (pc': Pc)
      requires InBounds(Content()) && !pc.PopTake? && !pc.PopCount? && !pc.PopMove?
      modifies this`consAmount
      ensures (Content(), pc') == PopLeaveNext(old(Content()), pc)
    {
      pc' := pc;
      match pc
      case PopDecide => pc' := if count <= 0 && flag then PopLeaveEmpty else PopTake;
      case PopLeaveEmpty =>
        consAmount := consAmount - 1;
        pc' := PopUnlock(None);
      case PopLeave(j) =>
        consAmount := consAmount - 1;
        pc' := PopUnlock(Some(j));
      case PopUnlock(_) => pc' := Idle;
      case _ =>
    }

    method RunDestroy(pc: Pc) returns (pc': Pc)
      modifies this`flag
      ensures (Content(), pc') == DestroyNext(old(Content()), pc)
    {
      pc' := pc;
      match pc
      case DestroyLock => pc' := DestroyFlag;
      case DestroyFlag =>
        flag := true;
        pc' := DestroyTest;
      case DestroyTest => pc' := if count > 0 || consAmount > 0 then DestroyWait else DestroyUnlock;
      case DestroyWait => pc' := DestroyWake;
      case DestroyWake => pc' := DestroyTest;
      case DestroyUnlock => pc' := DestroyFree;
      case DestroyFree => pc' := Destroyed;
      case _ =>
    }

    /** One statement of a thread at `pc`, on the fields and the ring. */
    method RunNext(pc: Pc, call: Call) returns (pc': Pc)
      requires InBounds(Content())
      modifies this`prod, this`cons, this`count, this`flag, this`consAmount, this`pushed, this`popped, data
      ensures (Content(), pc') == Next(old(Content()), pc, call)
    {
      hide PushNext, PopEnterNext, PopLeaveNext, DestroyNext;
      if pc.Idle? { pc' := Start(call); }
      else if InPush(pc) { pc' := RunPush(pc); }
      else if InDestroy(pc) { pc' := RunDestroy(pc); }
      else if Entering(pc) { pc' := RunPopEnter(pc); }
      else if pc.PopTake? || pc.PopCount? || pc.PopMove? { pc' := RunPopTake(pc); }
      else { pc' := RunPopLeave(pc); }
    }

    /** One step of thread `t`, in place. */
    method StepThread(t: nat, call: Call)
      requires Inv(View()) && Ready(View(), t) && Allowed(View(), t, call)
      modifies this, data
      ensures Inv(View()) && InBounds(old(Content())) && View() == Step(old(View()), t, call)
    {
      hide Inv, Ready, Allowed, Next;
      StepInv(View(), t, call);
      var pc := if t in threads then threads[t] else Idle;
      called, returned := called || (pc.Idle? && call.Destroy?), returned + Returned(t, pc);
      var pc' := RunNext(pc, call);
      lock := LockAfter(lock, t, pc, pc');
      threads := threads[t := pc'];
    }
  }
}
