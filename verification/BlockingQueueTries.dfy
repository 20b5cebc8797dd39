/** What a call of the blocking queue takes: all that is there, up to its maximum. */
module BlockingQueueTries {
  import opened BlockingQueue
  import opened BlockingQueueRuns

  // ---------- calls that take less than they may ----------

  /** What thread `t`'s current call has met: `none` if `m_count` was not positive at one of its own reads, or after
      one of its own compare-and-swaps; `late` if its wait on the kernel semaphore has timed out. */
  datatype Met = Met(none: bool, late: bool)

  /** The step is an access to `m_count`: a read, or a compare-and-swap, which reads if it fails. */
  predicate Accesses(pc: Pc) {
    pc.TryLoad? || (pc.TryCas? && pc.seen > 0) || (pc.Spin? && pc.left > 0) || pc.SpinCas?
  }

  function Meets(s: State, step: Step, t: Tid, met: Met): Met
    requires Enabled(s, step)
  {
    if step.t != t then met
    else if step.StartDequeue? then Met(false, false)
    else if step.Advance? then
      Met(met.none || (Accesses(s.threads[t]) && Apply(s, step).count <= 0),
          met.late || (s.threads[t].KernelWait? && !step.ok))
    else met
  }

  function CallMet(s: State, steps: seq<Step>, t: Tid, met: Met): Met
    requires Feasible(s, steps)
    decreases |steps|
  {
    if steps == [] then met else CallMet(Apply(s, steps[0]), steps[1..], t, Meets(s, steps[0], t, met))
  }

  predicate MetOk(pc: Pc, met: Met) {
    match pc
    case Idle => true
    case Signal(n) => true
    case Post(k) => true
    case TryLoad(mode, max, got) => got <= max
    case TryCas(mode, max, got, seen) => got <= max && (seen <= 0 ==> met.none)
    case Spin(mode, max, left) => met.none
    case SpinCas(mode, max, left, seen) => met.none
    case Decrement(mode, max) => met.none
    case KernelWait(mode, max) => met.none
    case UndoLoad(mode, max) => met.none && met.late
    case UndoTry(mode, max) => met.none && met.late
    case UndoCas(mode, max, seen) => met.none && met.late
    case Dequeue(mode, max, want, count) => (want < max ==> met.none) && (want == 0 && max > 0 && !mode.Try? ==> met.late)
    case Return(mode, max, count) => (count < max ==> met.none) && (count == 0 && max > 0 && !mode.Try? ==> met.late)
  }

  predicate MetStays(s: State, t: Tid, ok: bool, taken: nat, met: Met)
    requires Defined(s, t, ok, taken)
  {
    var s' := AdvanceThread(s, t, ok, taken);
    t in s'.threads && MetOk(s'.threads[t], Meets(s, Advance(t, ok, taken), t, met))
  }

  lemma TryMeets(s: State, t: Tid, ok: bool, taken: nat, met: Met)
    requires Defined(s, t, ok, taken) && MetOk(s.threads[t], met)
    requires var pc := s.threads[t]; pc.TryLoad? || pc.TryCas? || pc.Spin? || pc.SpinCas?
    ensures MetStays(s, t, ok, taken, met)
  {
  }

  lemma OtherMeets(s: State, t: Tid, ok: bool, taken: nat, met: Met)
    requires Defined(s, t, ok, taken) && MetOk(s.threads[t], met)
    requires var pc := s.threads[t]; !pc.TryLoad? && !pc.TryCas? && !pc.Spin? && !pc.SpinCas?
    ensures MetStays(s, t, ok, taken, met)
  {
  }

  lemma AdvanceMeets(s: State, t: Tid, ok: bool, taken: nat, met: Met)
    requires Defined(s, t, ok, taken) && MetOk(s.threads[t], met)
    ensures MetStays(s, t, ok, taken, met)
  {
    hide MetOk, MetStays;
    var pc := s.threads[t];
    if pc.TryLoad? || pc.TryCas? || pc.Spin? || pc.SpinCas? {
      TryMeets(s, t, ok, taken, met);
    } else {
      OtherMeets(s, t, ok, taken, met);
    }
  }

  lemma StepMeets(s: State, step: Step, t: Tid, met: Met)
    requires Enabled(s, step) && t in s.threads && MetOk(s.threads[t], met)
    ensures t in Apply(s, step).threads && MetOk(Apply(s, step).threads[t], Meets(s, step, t, met))
  {
    hide AdvanceThread;
    if step.t != t {
      OtherTally(s, step, t);
    } else if step.Advance? {
      AdvanceMeets(s, t, step.ok, step.taken, met);
    }
  }

  lemma {:induction false} RunMeets(s: State, steps: seq<Step>, t: Tid, met: Met)
    requires Feasible(s, steps) && t in s.threads && MetOk(s.threads[t], met)
    ensures t in Run(s, steps).threads && MetOk(Run(s, steps).threads[t], CallMet(s, steps, t, met))
    decreases |steps|
  {
    if steps != [] {
      StepMeets(s, steps[0], t, met);
      RunMeets(Apply(s, steps[0]), steps[1..], t, Meets(s, steps[0], t, met));
    }
  }

  /** A call returns fewer elements than its maximum only if `m_count` was not positive when it looked, or when it had
      taken what there was; and a call that may wait returns none only if its wait has timed out. */
  lemma LessOnlyIfNoneLeft(s0: State, steps: seq<Step>, t: Tid)
    requires Init(s0) && Feasible(s0, steps) && t in s0.threads
    requires t in Run(s0, steps).threads && Run(s0, steps).threads[t].Return?
    ensures var pc, met := Run(s0, steps).threads[t], CallMet(s0, steps, t, Met(false, false));
      && (pc.count < pc.max ==> met.none)
      && (pc.count == 0 && pc.max > 0 && !pc.mode.Try? ==> met.late)
  {
    RunMeets(s0, steps, t, Met(false, false));
  }

  // ---------- calls on their own ----------

  predicate AllIdle(s: State) { forall t :: t in s.threads ==> s.threads[t].Idle? }

  /** A dequeue of up to `max` that runs on its own, with compare-and-swaps that succeed and an inner queue that yields
      all `n` elements at once. */
  function LoneSteps(t: Tid, mode: Mode, max: nat, n: nat): seq<Step> {
    [StartDequeue(t, mode, max), Advance(t, true, 0), Advance(t, true, 0)]
    + (if n > 0 then [Advance(t, true, n)] else []) + [Advance(t, true, 0)]
  }

  /** The step leads from `s` to `s'`. */
  predicate Goes(s: State, step: Step, s': State) { Enabled(s, step) && Apply(s, step) == s' }

  lemma Chain4(s: State, a: Step, b: Step, c: Step, d: Step, s1: State, s2: State, s3: State, s4: State)
    requires Goes(s, a, s1) && Goes(s1, b, s2) && Goes(s2, c, s3) && Goes(s3, d, s4)
    ensures Feasible(s, [a, b, c, d]) && Run(s, [a, b, c, d]) == s4
  {
    hide Enabled, Apply, Feasible, Run;
    OneStep(s3, d);
    MoreSteps(s2, c, [d]);
    MoreSteps(s1, b, [c, d]);
    MoreSteps(s, a, [b, c, d]);
    assert [c] + [d] == [c, d] && [b] + [c, d] == [b, c, d] && [a] + [b, c, d] == [a, b, c, d];
  }

  lemma GoesNone(s: State, t: Tid, mode: Mode, max: nat)
    requires t in s.threads && s.count >= 0 && (max == 0 || (s.count == 0 && mode.Try?))
    ensures Goes(Go(s, t, TryCas(mode, max, 0, s.count)), Advance(t, true, 0), Go(s, t, Dequeue(mode, max, 0, 0)))
  {
    assert s.threads[t := TryCas(mode, max, 0, s.count)][t := Dequeue(mode, max, 0, 0)] == s.threads[t := Dequeue(mode, max, 0, 0)];
  }

  lemma LoneEmpty(s: State, t: Tid, mode: Mode, max: nat)
    requires t in s.threads && s.threads[t].Idle? && s.count >= 0
    requires max == 0 || (s.count == 0 && mode.Try?)
    ensures Feasible(s, LoneSteps(t, mode, max, 0))
    ensures Run(s, LoneSteps(t, mode, max, 0)) == s.(threads := s.threads[t := Return(mode, max, 0)])
  {
    hide Enabled, Apply, Feasible, Run;
    var call, go := StartDequeue(t, mode, max), Advance(t, true, 0);
    var s1, s2 := Go(s, t, TryLoad(mode, max, 0)), Go(s, t, TryCas(mode, max, 0, s.count));
    var s3, s4 := Go(s, t, Dequeue(mode, max, 0, 0)), Go(s, t, Return(mode, max, 0));
    GoesStart(s, t, mode, max);
    GoesLoad(s, t, mode, max);
    GoesNone(s, t, mode, max);
    GoesReturn(s, t, mode, max, 0);
    Chain4(s, call, go, go, go, s1, s2, s3, s4);
    assert LoneSteps(t, mode, max, 0) == [call, go, go, go];
  }

  lemma LoneTakes(s: State, t: Tid, mode: Mode, max: nat, n: nat)
    requires t in s.threads && s.threads[t].Idle? && s.count == s.inner && n == Min(s.inner, max) && n > 0
    ensures Feasible(s, LoneSteps(t, mode, max, n))
    ensures var s' := Run(s, LoneSteps(t, mode, max, n));
      && s'.count == s'.inner == s.inner - n && s'.kernel == s.kernel && s'.threads == s.threads[t := Return(mode, max, n)]
      && s'.removed == s.removed + n && s'.granted == s.granted + n
  {
    hide Enabled, Apply, Feasible, Run;
    var call, go, take := StartDequeue(t, mode, max), Advance(t, true, 0), Advance(t, true, n);
    var s1, s2 := Go(s, t, TryLoad(mode, max, 0)), Go(s, t, TryCas(mode, max, 0, s.count));
    var s3 := Go(s.(count := s.count - n, granted := s.granted + n), t, Dequeue(mode, max, n, 0));
    var gone := s.(count := s.count - n, granted := s.granted + n, inner := s.inner - n, removed := s.removed + n);
    var s4, s5 := Go(gone, t, Dequeue(mode, max, n, n)), Go(gone, t, Return(mode, max, n));
    GoesStart(s, t, mode, max);
    GoesLoad(s, t, mode, max);
    GoesCas(s, t, mode, max, n);
    GoesTake(s3, gone, t, mode, max, n);
    GoesReturn(gone, t, mode, max, n);
    Chain4(s1, go, go, take, go, s2, s3, s4, s5);
    MoreSteps(s, call, [go, go, take, go]);
    assert LoneSteps(t, mode, max, n) == [call] + [go, go, take, go];
  }

  lemma GoesStart(s: State, t: Tid, mode: Mode, max: nat)
    requires t in s.threads && s.threads[t].Idle?
    ensures Goes(s, StartDequeue(t, mode, max), Go(s, t, TryLoad(mode, max, 0)))
  {
  }

  lemma GoesLoad(s: State, t: Tid, mode: Mode, max: nat)
    requires t in s.threads
    ensures Goes(Go(s, t, TryLoad(mode, max, 0)), Advance(t, true, 0), Go(s, t, TryCas(mode, max, 0, s.count)))
  {
    assert s.threads[t := TryLoad(mode, max, 0)][t := TryCas(mode, max, 0, s.count)] == s.threads[t := TryCas(mode, max, 0, s.count)];
  }

  lemma GoesCas(s: State, t: Tid, mode: Mode, max: nat, n: nat)
    requires t in s.threads && s.count > 0 && n == Min(s.count, max) && n > 0
    ensures Goes(Go(s, t, TryCas(mode, max, 0, s.count)), Advance(t, true, 0),
                 Go(s.(count := s.count - n, granted := s.granted + n), t, Dequeue(mode, max, n, 0)))
  {
    assert s.threads[t := TryCas(mode, max, 0, s.count)][t := Dequeue(mode, max, n, 0)] == s.threads[t := Dequeue(mode, max, n, 0)];
  }

  lemma GoesTake(s3: State, gone: State, t: Tid, mode: Mode, max: nat, n: nat)
    requires t in s3.threads && s3.threads[t] == Dequeue(mode, max, n, 0) && 0 < n <= s3.inner
    requires gone.(threads := s3.threads) == s3.(inner := s3.inner - n, removed := s3.removed + n)
    requires s3.threads == gone.threads[t := Dequeue(mode, max, n, 0)]
    ensures Goes(s3, Advance(t, true, n), Go(gone, t, Dequeue(mode, max, n, n)))
  {
    assert s3.threads[t := Dequeue(mode, max, n, n)] == gone.threads[t := Dequeue(mode, max, n, n)];
  }

  lemma GoesReturn(s: State, t: Tid, mode: Mode, max: nat, n: nat)
    ensures Goes(Go(s, t, Dequeue(mode, max, n, n)), Advance(t, true, 0), Go(s, t, Return(mode, max, n)))
  {
    assert s.threads[t := Dequeue(mode, max, n, n)][t := Return(mode, max, n)] == s.threads[t := Return(mode, max, n)];
  }

  /** With nobody else inside, a dequeue of up to `max` returns as many elements as there are, up to its maximum, and
      leaves the others; it does not wait, unless there are none and it is to wait. */
  lemma LoneDequeue(s0: State, steps: seq<Step>, t: Tid, mode: Mode, max: nat)
    requires Init(s0) && Feasible(s0, steps) && AllIdle(Run(s0, steps)) && t in Run(s0, steps).threads
    requires mode.Try? || max == 0 || Run(s0, steps).inner > 0
    ensures var s := Run(s0, steps);
      var n := Min(s.inner, max);
      && Feasible(s, LoneSteps(t, mode, max, n))
      && var s' := Run(s, LoneSteps(t, mode, max, n));
         && t in s'.threads && s'.threads[t] == Return(mode, max, n)
         && s'.count == s'.inner == s.inner - n && s'.kernel == 0 && s'.removed == s.removed + n
  {
    QuietCount(s0, steps);
    var s := Run(s0, steps);
    if Min(s.inner, max) == 0 {
      LoneEmpty(s, t, mode, max);
    } else {
      LoneTakes(s, t, mode, max, Min(s.inner, max));
    }
  }

  /** With nobody else inside, an enqueue adds its elements and as many permits, and wakes nobody. */
  lemma LoneEnqueue(s0: State, steps: seq<Step>, t: Tid, n: nat)
    requires Init(s0) && Feasible(s0, steps) && AllIdle(Run(s0, steps)) && t in Run(s0, steps).threads
    ensures var s, call := Run(s0, steps), [Enqueue(t, n), Advance(t, true, 0)];
      && Feasible(s, call)
      && var s' := Run(s, call);
         s'.threads == s.threads && s'.count == s'.inner == s.inner + n && s'.kernel == 0
  {
    QuietCount(s0, steps);
    var s := Run(s0, steps);
    var s1 := Apply(s, Enqueue(t, n));
    var s2 := Apply(s1, Advance(t, true, 0));
    assert s2.threads == s.threads;
    OneStep(s1, Advance(t, true, 0));
    MoreSteps(s, Enqueue(t, n), [Advance(t, true, 0)]);
    assert [Enqueue(t, n)] + [Advance(t, true, 0)] == [Enqueue(t, n), Advance(t, true, 0)];
  }

  /** A call that is spinning takes what appears, up to its maximum, if nobody else does. */
  lemma SpinTakes(s: State, t: Tid)
    requires t in s.threads && s.threads[t].Spin? && s.threads[t].left > 0 && s.count > 0
    ensures var go, pc := Advance(t, true, 0), s.threads[t];
      var n := Min(s.count, pc.max);
      && Feasible(s, [go, go])
      && var s' := Run(s, [go, go]);
         t in s'.threads && s'.threads[t] == Dequeue(pc.mode, pc.max, n, 0) && s'.count == s.count - n
  {
    var go := Advance(t, true, 0);
    OneStep(Apply(s, go), go);
    MoreSteps(s, go, [go]);
    assert [go] + [go] == [go, go];
  }

  // ---------- waiting ----------

  lemma {:induction false} RunsOn(s: State, steps: seq<Step>, more: seq<Step>)
    requires Feasible(s, steps) && Feasible(Run(s, steps), more)
    ensures Feasible(s, steps + more) && Run(s, steps + more) == Run(Run(s, steps), more)
    decreases |steps|
  {
    if steps == [] {
      assert [] + more == more;
    } else {
      assert (steps + more)[1..] == steps[1..] + more;
      RunsOn(Apply(s, steps[0]), steps[1..], more);
    }
  }

  function Spins(t: Tid, n: nat): seq<Step> { seq(n, _ => Advance(t, true, 0)) }

  /** Spinning at a count of zero changes nothing but the number of rounds left. */
  lemma {:induction false} SpinsOut(s: State, t: Tid, mode: Mode, max: nat, n: nat)
    requires t in s.threads && s.threads[t] == Spin(mode, max, n) && s.count <= 0
    ensures Feasible(s, Spins(t, n)) && Run(s, Spins(t, n)) == Go(s, t, Spin(mode, max, 0))
    decreases n
  {
    if n == 0 {
      assert Spins(t, n) == [];
      assert s.threads[t := Spin(mode, max, 0)] == s.threads;
    } else {
      var s' := Go(s, t, Spin(mode, max, n - 1));
      assert Goes(s, Advance(t, true, 0), s');
      SpinsOut(s', t, mode, max, n - 1);
      assert Spins(t, n) == [Advance(t, true, 0)] + Spins(t, n - 1);
      MoreSteps(s, Advance(t, true, 0), Spins(t, n - 1));
      assert s'.threads[t := Spin(mode, max, 0)] == s.threads[t := Spin(mode, max, 0)];
    }
  }

  /** The steps of a call that finds nothing until it waits on the kernel semaphore. */
  function WaitSteps(t: Tid, mode: Mode, max: nat): seq<Step> {
    [StartDequeue(t, mode, max)] + ([Advance(t, true, 0), Advance(t, true, 0)]
      + (Spins(t, SPINS) + [Advance(t, true, 0), Advance(t, true, 0)]))
  }

  lemma TwoGo(s: State, a: Step, b: Step, s1: State, s2: State)
    requires Goes(s, a, s1) && Goes(s1, b, s2)
    ensures Feasible(s, [a, b]) && Run(s, [a, b]) == s2
  {
    hide Enabled, Apply, Feasible, Run;
    OneStep(s1, b);
    MoreSteps(s, a, [b]);
    assert [a] + [b] == [a, b];
  }

  lemma TriesInVain(s: State, t: Tid, mode: Mode, max: nat)
    requires t in s.threads && s.count <= 0 && max > 0 && !mode.Try?
    ensures var s1, go := Go(s, t, TryLoad(mode, max, 0)), Advance(t, true, 0);
      Feasible(s1, [go, go]) && Run(s1, [go, go]) == Go(s, t, Spin(mode, max, SPINS))
  {
    var go, s1, s2 := Advance(t, true, 0), Go(s, t, TryLoad(mode, max, 0)), Go(s, t, TryCas(mode, max, 0, s.count));
    GoesLoad(s, t, mode, max);
    var s3 := Go(s, t, Spin(mode, max, SPINS));
    assert s2.threads[t := Spin(mode, max, SPINS)] == s3.threads;
    assert Goes(s2, go, s3);
    TwoGo(s1, go, go, s2, s3);
  }

  lemma Decrements(s: State, t: Tid, mode: Mode, max: nat)
    requires t in s.threads && s.count <= 0
    ensures var s3, go := Go(s, t, Spin(mode, max, 0)), Advance(t, true, 0);
      Feasible(s3, [go, go]) && Run(s3, [go, go]) == Go(s.(count := s.count - 1), t, KernelWait(mode, max))
  {
    var go, s3, s4 := Advance(t, true, 0), Go(s, t, Spin(mode, max, 0)), Go(s, t, Decrement(mode, max));
    var s5 := Go(s.(count := s.count - 1), t, KernelWait(mode, max));
    assert s3.threads[t := Decrement(mode, max)] == s4.threads && s4.threads[t := KernelWait(mode, max)] == s5.threads;
    assert Goes(s3, go, s4) && Goes(s4, go, s5);
    TwoGo(s3, go, go, s4, s5);
  }

  /** A call that is to wait, and finds nothing, waits. */
  lemma Waits(s: State, t: Tid, mode: Mode, max: nat)
    requires t in s.threads && s.threads[t].Idle? && s.count <= 0 && max > 0 && !mode.Try?
    ensures Feasible(s, WaitSteps(t, mode, max))
    ensures Run(s, WaitSteps(t, mode, max)) == Go(s.(count := s.count - 1), t, KernelWait(mode, max))
  {
    var go := Advance(t, true, 0);
    var s1, s2 := Go(s, t, TryLoad(mode, max, 0)), Go(s, t, Spin(mode, max, SPINS));
    GoesStart(s, t, mode, max);
    TriesInVain(s, t, mode, max);
    SpinsOut(s2, t, mode, max, SPINS);
    assert s2.threads[t := Spin(mode, max, 0)] == s.threads[t := Spin(mode, max, 0)];
    Decrements(s, t, mode, max);
    hide Enabled, Apply, Feasible, Run, Spins;
    RunsOn(s2, Spins(t, SPINS), [go, go]);
    RunsOn(s1, [go, go], Spins(t, SPINS) + [go, go]);
    MoreSteps(s, StartDequeue(t, mode, max), [go, go] + (Spins(t, SPINS) + [go, go]));
  }

  /** The steps of a wait that times out: it takes its decrement of `m_count` back. */
  function TimeOutSteps(t: Tid): seq<Step> {
    [Advance(t, false, 0), Advance(t, true, 0), Advance(t, true, 0), Advance(t, true, 0)]
  }

  lemma TimesOut(s: State, t: Tid, max: nat)
    requires t in s.threads && s.count < 0
    ensures var s0, s' := Go(s, t, KernelWait(Timed, max)), Go(s.(count := s.count + 1), t, Return(Timed, max, 0));
      Feasible(s0, TimeOutSteps(t)) && Run(s0, TimeOutSteps(t)) == s'
  {
    var go, late := Advance(t, true, 0), Advance(t, false, 0);
    var s0, s1, s2 := Go(s, t, KernelWait(Timed, max)), Go(s, t, UndoLoad(Timed, max)), Go(s, t, UndoCas(Timed, max, s.count));
    var back := s.(count := s.count + 1);
    var s3 := Go(back, t, Dequeue(Timed, max, 0, 0));
    assert s0.threads[t := UndoLoad(Timed, max)] == s1.threads && s1.threads[t := UndoCas(Timed, max, s.count)] == s2.threads;
    assert s2.threads[t := Dequeue(Timed, max, 0, 0)] == s3.threads;
    assert Goes(s0, late, s1) && Goes(s1, go, s2) && Goes(s2, go, s3);
    GoesReturn(back, t, Timed, max, 0);
    Chain4(s0, late, go, go, go, s1, s2, s3, Go(back, t, Return(Timed, max, 0)));
  }

  /** With nobody else inside and nothing in the queue, a call with a time-out waits, times out, returns nothing, and
      leaves everything as it was. */
  lemma LoneTimeOut(s0: State, steps: seq<Step>, t: Tid, max: nat)
    requires Init(s0) && Feasible(s0, steps) && AllIdle(Run(s0, steps)) && t in Run(s0, steps).threads
    requires max > 0 && Run(s0, steps).inner == 0
    ensures var s, call := Run(s0, steps), WaitSteps(t, Timed, max) + TimeOutSteps(t);
      Feasible(s, call) && Run(s, call) == Go(s, t, Return(Timed, max, 0))
  {
    QuietCount(s0, steps);
    var s := Run(s0, steps);
    var less := s.(count := s.count - 1);
    Waits(s, t, Timed, max);
    TimesOut(less, t, max);
    assert less.(count := less.count + 1) == s;
    hide Enabled, Apply, Feasible, Run;
    RunsOn(s, WaitSteps(t, Timed, max), TimeOutSteps(t));
  }

  /** The steps of an enqueue of `n` elements by `u` that wakes thread `t`, up to where `t` has its first permit. */
  function WakeSteps(t: Tid, u: Tid, n: nat): seq<Step> {
    [Enqueue(u, n), Advance(u, true, 0), Advance(u, true, 0), Advance(t, true, 0)]
  }

  /** With one thread waiting and nobody else inside, an enqueue posts once, and the waiter has a permit: no wake-up is
      lost, and none is too many. */
  lemma EnqueueWakes(s: State, t: Tid, u: Tid, mode: Mode, max: nat, n: nat)
    requires t in s.threads && u in s.threads && t != u && s.threads[u].Idle? && s.threads[t] == KernelWait(mode, max)
    requires s.count == -1 && s.kernel == 0 && n > 0
    ensures Feasible(s, WakeSteps(t, u, n))
    ensures var s' := Run(s, WakeSteps(t, u, n));
      && t in s'.threads && s'.threads[t] == One(mode, max) && u in s'.threads && s'.threads[u].Idle?
      && s'.count == n - 1 && s'.kernel == 0 && s'.inner == s.inner + n
  {
    var go, wake := Advance(u, true, 0), Advance(t, true, 0);
    var s1 := Apply(s, Enqueue(u, n));
    var s2 := Apply(s1, go);
    assert s2.threads[u] == Post(1) && s2.count == n - 1;
    var s3 := Apply(s2, go);
    var s4 := Apply(s3, wake);
    Chain4(s, Enqueue(u, n), go, go, wake, s1, s2, s3, s4);
  }

  /** From an empty queue with nobody inside: a thread waits, another one enqueues, and the waiter goes on with a
      permit. */
  lemma WaiterIsWoken(s0: State, steps: seq<Step>, t: Tid, u: Tid, mode: Mode, max: nat, n: nat)
    requires Init(s0) && Feasible(s0, steps) && AllIdle(Run(s0, steps)) && Run(s0, steps).inner == 0
    requires t in Run(s0, steps).threads && u in Run(s0, steps).threads && t != u && max > 0 && !mode.Try? && n > 0
    ensures var s, both := Run(s0, steps), WaitSteps(t, mode, max) + WakeSteps(t, u, n);
      && Feasible(s, both)
      && var s' := Run(s, both);
         && t in s'.threads && s'.threads[t] == One(mode, max) && u in s'.threads && s'.threads[u].Idle?
         && s'.count == n - 1 && s'.kernel == 0 && s'.inner == n
  {
    QuietCount(s0, steps);
    var s := Run(s0, steps);
    Waits(s, t, mode, max);
    EnqueueWakes(Go(s.(count := s.count - 1), t, KernelWait(mode, max)), t, u, mode, max, n);
    hide Enabled, Apply, Feasible, Run;
    RunsOn(s, WaitSteps(t, mode, max), WakeSteps(t, u, n));
  }
}
