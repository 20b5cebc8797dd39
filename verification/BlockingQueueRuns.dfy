/** What the semaphore and the blocking queue guarantee over whole runs. */
module BlockingQueueRuns {
  import opened ThreadSums
  import opened BlockingQueue

  predicate Feasible(s: State, steps: seq<Step>)
    decreases |steps|
  {
    steps != [] ==> Enabled(s, steps[0]) && Feasible(Apply(s, steps[0]), steps[1..])
  }

  function Run(s: State, steps: seq<Step>): State
    requires Feasible(s, steps)
    decreases |steps|
  {
    if steps == [] then s else Run(Apply(s, steps[0]), steps[1..])
  }

  lemma {:induction false} RunKeepsInv(s: State, steps: seq<Step>)
    requires Inv(s) && Feasible(s, steps)
    ensures Inv(Run(s, steps))
    decreases |steps|
  {
    if steps != [] {
      StepKeepsInv(s, steps[0]);
      RunKeepsInv(Apply(s, steps[0]), steps[1..]);
    }
  }

  lemma Reachable(s: State, steps: seq<Step>)
    requires Init(s) && Feasible(s, steps)
    ensures Inv(Run(s, steps))
  {
    SumZero(s.threads, WaiterWeight());
    SumZero(s.threads, OwedWeight());
    SumZero(s.threads, UnsignalledWeight());
    SumZero(s.threads, HeldWeight());
    RunKeepsInv(s, steps);
  }

  // ---------- what it means ----------

  /** Permits are conserved: those issued and not granted are in the count or in the kernel semaphore, or a
      running signal is about to post them; and every waiter beyond those that the count still owes a permit
      has its token there. */
  lemma PermitsConserved(s0: State, steps: seq<Step>)
    requires Init(s0) && Feasible(s0, steps)
    ensures var s := Run(s0, steps);
      && s.granted <= s.issued <= s.enqueued
      && s.issued - s.granted == (if s.count > 0 then s.count else 0) + s.kernel + Owed(s)
      && (s.count >= 0 ==> Waiters(s) == s.kernel + Owed(s))
      && (s.count < 0 ==> Waiters(s) == s.kernel + Owed(s) - s.count)
  {
    Reachable(s0, steps);
  }

  /** No wake-up is lost: when a thread waits on a kernel semaphore at zero and no signal is about to post,
      every permit issued has been granted. */
  lemma NoLostWakeup(s0: State, steps: seq<Step>, t: Tid)
    requires Init(s0) && Feasible(s0, steps)
    requires var s := Run(s0, steps); t in s.threads && s.threads[t].KernelWait? && s.kernel == 0
    requires forall u :: u in Run(s0, steps).threads ==> !Run(s0, steps).threads[u].Post?
    ensures var s := Run(s0, steps); s.issued == s.granted && s.count < 0
  {
    Reachable(s0, steps);
    SumZero(Run(s0, steps).threads, OwedWeight());
    SumAtLeast(Run(s0, steps).threads, WaiterWeight(), t);
  }

  /** The inner queue holds an element for every permit that a consumer has and has not used. */
  lemma InnerCoversPermits(s0: State, steps: seq<Step>)
    requires Init(s0) && Feasible(s0, steps)
    ensures var s := Run(s0, steps); Held(s) <= s.inner && s.inner == s.enqueued - s.removed
  {
    Reachable(s0, steps);
  }

  /** So no retry loop runs against an empty queue, and each can be completed. */
  lemma RetryFindsElements(s0: State, steps: seq<Step>, t: Tid)
    requires Init(s0) && Feasible(s0, steps)
    requires var s := Run(s0, steps); t in s.threads && s.threads[t].Dequeue? && s.threads[t].count != s.threads[t].want
    ensures var s := Run(s0, steps);
      var left := s.threads[t].want - s.threads[t].count;
      0 < left <= s.inner && Defined(s, t, true, left)
  {
    Reachable(s0, steps);
    SumAtLeast(Run(s0, steps).threads, HeldWeight(), t);
  }

  // ---------- what a call returns ----------

  /** The permits granted to a call and the elements it has taken out of the inner queue. */
  datatype Tally = Tally(permits: int, elements: int)

  /** What a step adds to the tally of thread `t`'s call; a new call starts at zero. */
  function Tallied(s: State, step: Step, t: Tid, tally: Tally): Tally
    requires Enabled(s, step)
  {
    if step.StartDequeue? && step.t == t then Tally(0, 0)
    else if step.Advance? && step.t == t then
      var s' := Apply(s, step);
      Tally(tally.permits + (s'.granted - s.granted), tally.elements + (s'.removed - s.removed))
    else tally
  }

  /** The tally of thread `t`'s last call after the steps of a run. */
  function CallTally(s: State, steps: seq<Step>, t: Tid, tally: Tally): Tally
    requires Feasible(s, steps)
    decreases |steps|
  {
    if steps == [] then tally else CallTally(Apply(s, steps[0]), steps[1..], t, Tallied(s, steps[0], t, tally))
  }

  /** What the thread's position says about its tally. */
  predicate TallyOk(pc: Pc, tally: Tally) {
    match pc
    case Idle => true
    case Signal(n) => true
    case Post(k) => true
    case TryLoad(mode, max, got) => tally == Tally(got, 0)
    case TryCas(mode, max, got, seen) => tally == Tally(got, 0)
    case Spin(mode, max, left) => tally == Tally(0, 0)
    case SpinCas(mode, max, left, seen) => tally == Tally(0, 0)
    case Decrement(mode, max) => tally == Tally(0, 0)
    case KernelWait(mode, max) => tally == Tally(0, 0)
    case UndoLoad(mode, max) => tally == Tally(0, 0)
    case UndoTry(mode, max) => tally == Tally(0, 0)
    case UndoCas(mode, max, seen) => tally == Tally(0, 0)
    case Dequeue(mode, max, want, count) => tally == Tally(want, count)
    case Return(mode, max, count) => tally == Tally(count, count)
  }

  lemma AdvanceTally(s: State, t: Tid, ok: bool, taken: nat, tally: Tally)
    requires Defined(s, t, ok, taken) && TallyOk(s.threads[t], tally)
    ensures var s' := AdvanceThread(s, t, ok, taken);
      t in s'.threads && TallyOk(s'.threads[t], Tally(tally.permits + (s'.granted - s.granted), tally.elements + (s'.removed - s.removed)))
  {
  }

  lemma OtherTally(s: State, step: Step, t: Tid)
    requires Enabled(s, step) && step.t != t && t in s.threads
    ensures t in Apply(s, step).threads && Apply(s, step).threads[t] == s.threads[t]
  {
  }

  lemma StepTally(s: State, step: Step, t: Tid, tally: Tally)
    requires Enabled(s, step) && t in s.threads && TallyOk(s.threads[t], tally)
    ensures t in Apply(s, step).threads && TallyOk(Apply(s, step).threads[t], Tallied(s, step, t, tally))
  {
    hide AdvanceThread;
    if step.t != t {
      OtherTally(s, step, t);
    } else if step.Advance? {
      AdvanceTally(s, t, step.ok, step.taken, tally);
    }
  }

  lemma {:induction false} RunTally(s: State, steps: seq<Step>, t: Tid, tally: Tally)
    requires Feasible(s, steps) && t in s.threads && TallyOk(s.threads[t], tally)
    ensures t in Run(s, steps).threads && TallyOk(Run(s, steps).threads[t], CallTally(s, steps, t, tally))
    decreases |steps|
  {
    if steps != [] {
      StepTally(s, steps[0], t, tally);
      RunTally(Apply(s, steps[0]), steps[1..], t, Tallied(s, steps[0], t, tally));
    }
  }

  /** A call returns exactly as many elements as it took out of the inner queue, which are as many as the permits
      it was granted; at most its maximum; and a call that waits without a time-out returns at least one exactly if its maximum is
      positive. */
  lemma ReturnsWhatItAcquired(s0: State, steps: seq<Step>, t: Tid)
    requires Init(s0) && Feasible(s0, steps) && t in s0.threads
    requires t in Run(s0, steps).threads && Run(s0, steps).threads[t].Return?
    ensures var pc, tally := Run(s0, steps).threads[t], CallTally(s0, steps, t, Tally(0, 0));
      && pc.count == tally.elements == tally.permits
      && pc.count <= pc.max && (pc.mode.Wait? ==> (pc.count > 0 <==> pc.max > 0))
  {
    RunTally(s0, steps, t, Tally(0, 0));
    Reachable(s0, steps);
    assert PcOk(Run(s0, steps).threads[t]);
  }

  /** `waitMany` asserts that it has acquired something.  It has, in every run, exactly if the maximum is positive: */
  lemma WaitAcquires(s0: State, steps: seq<Step>, t: Tid)
    requires Init(s0) && Feasible(s0, steps)
    requires var s := Run(s0, steps); t in s.threads && s.threads[t].Dequeue? && s.threads[t].mode.Wait?
    ensures var pc := Run(s0, steps).threads[t]; pc.want > 0 <==> pc.max > 0
  {
    Reachable(s0, steps);
    assert PcOk(Run(s0, steps).threads[t]);
  }

  /** ... with a maximum of zero the assertion fails at once. */
  lemma ZeroWaitFails(s0: State, t: Tid)
    requires Init(s0) && t in s0.threads
    ensures var steps := [StartDequeue(t, Wait, 0), Advance(t, true, 0), Advance(t, true, 0)];
      Feasible(s0, steps) && t in Run(s0, steps).threads && Run(s0, steps).threads[t] == Dequeue(Wait, 0, 0, 0)
  {
    var call, load, cas := StartDequeue(t, Wait, 0), Advance(t, true, 0), Advance(t, true, 0);
    var s1 := Apply(s0, call);
    var s2 := Apply(s1, load);
    OneStep(s2, cas);
    MoreSteps(s1, load, [cas]);
    MoreSteps(s0, call, [load, cas]);
  }

  lemma OneStep(s: State, step: Step)
    requires Enabled(s, step)
    ensures Feasible(s, [step]) && Run(s, [step]) == Apply(s, step)
  {
  }

  lemma MoreSteps(s: State, step: Step, steps: seq<Step>)
    requires Enabled(s, step) && Feasible(Apply(s, step), steps)
    ensures Feasible(s, [step] + steps) && Run(s, [step] + steps) == Run(Apply(s, step), steps)
  {
    assert ([step] + steps)[1..] == steps;
  }

  /** When nobody is in a call, the count is the number of elements in the queue and the kernel semaphore is at
      zero. */
  lemma QuietCount(s0: State, steps: seq<Step>)
    requires Init(s0) && Feasible(s0, steps)
    requires forall t :: t in Run(s0, steps).threads ==> Run(s0, steps).threads[t].Idle?
    ensures var s := Run(s0, steps); s.count == s.inner == s.enqueued - s.removed && s.kernel == 0
  {
    var s := Run(s0, steps);
    Reachable(s0, steps);
    SumZero(s.threads, WaiterWeight());
    SumZero(s.threads, OwedWeight());
    SumZero(s.threads, UnsignalledWeight());
    SumZero(s.threads, HeldWeight());
  }

  /** Every thread can go on, except those that wait on a kernel semaphore at zero. */
  lemma NeverStuck(s0: State, steps: seq<Step>, t: Tid)
    requires Init(s0) && Feasible(s0, steps) && t in Run(s0, steps).threads
    ensures var s := Run(s0, steps);
      s.threads[t].Idle? || (exists ok :: Defined(s, t, ok, 0)) || (s.threads[t].KernelWait? && s.kernel == 0)
  {
    Reachable(s0, steps);
    var s := Run(s0, steps);
    assert PcOk(s.threads[t]);
    if !s.threads[t].Idle? && !(s.threads[t].KernelWait? && s.kernel == 0) {
      assert Defined(s, t, true, 0);
    }
  }
}
