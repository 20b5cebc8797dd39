/** What a call of the producer hash answers: it fails if and only if one of its own allocations did, and on its own it
    always comes to an end. */
module ProducerHashAnswers {
  import opened ProducerHash
  import opened ProducerHashSteps
  import opened ProducerHashRuns

  // ---------- when a call fails ----------

  /** Whether an allocation of thread `t`'s current call has failed. */
  function Denied(s: State, step: Step, t: Tid, was: bool): bool {
    if step == Call(t) then false
    else if step == Advance(t, false) && t in s.threads && (s.threads[t].pc.Allocate? || s.threads[t].pc.Create?) then true
    else was
  }

  function CallDenied(s: State, steps: seq<Step>, t: Tid, was: bool): bool
    requires Feasible(s, steps)
    decreases |steps|
  {
    if steps == [] then was else CallDenied(Apply(s, steps[0]), steps[1..], t, Denied(s, steps[0], t, was))
  }

  predicate Failing(pc: Pc) { pc.FailCount? || pc.FailUnlock? || pc.CreateFail? || (pc.Done? && pc.result.None?) }

  /** A call is on its way to fail exactly if an allocation has failed. */
  predicate Agrees(s: State, t: Tid, denied: bool) {
    t in s.threads && (s.threads[t].pc.Idle? || (denied <==> Failing(s.threads[t].pc)))
  }

  /** What a thread finds or carries is a producer. */
  lemma FoundIsSome(s: State, a: Aux, t: Tid)
    requires Inv(s, a) && Defined(s, t)
    ensures var pc := s.threads[t].pc;
      && (pc.Lookup? && Probed(s, t, pc.h, pc.n).key == Some(t) ==> Probed(s, t, pc.h, pc.n).value.Some?)
      && (pc.MigrateStore? ==> pc.value.Some?)
  {
    hide LockOk, CountOk, MineOk;
    var pc := s.threads[t].pc;
    assert ThreadOk(s, a, t);
    if pc.Lookup? {
      assert TableOk(s, a, pc.h);
      assert SlotOk(s, a, pc.h, Pos(s, t, pc.h, pc.n));
    }
  }

  lemma AdvanceAgrees(s: State, a: Aux, t: Tid, ok: bool, denied: bool)
    requires Inv(s, a) && Defined(s, t) && Agrees(s, t, denied)
    ensures Agrees(AdvanceThread(s, t, ok), t, Denied(s, Advance(t, ok), t, denied))
  {
    FoundIsSome(s, a, t);
    hide Inv;
    if s.threads[t].pc.Lookup? || s.threads[t].pc.MigrateStore? {
      FoundAgrees(s, t, ok, denied);
    } else {
      OnlyDenialFails(s, t, ok, denied);
    }
  }

  lemma FoundAgrees(s: State, t: Tid, ok: bool, denied: bool)
    requires Defined(s, t) && Agrees(s, t, denied) && (s.threads[t].pc.Lookup? || s.threads[t].pc.MigrateStore?)
    requires var pc := s.threads[t].pc;
      && (pc.Lookup? && Probed(s, t, pc.h, pc.n).key == Some(t) ==> Probed(s, t, pc.h, pc.n).value.Some?)
      && (pc.MigrateStore? ==> pc.value.Some?)
    ensures Agrees(AdvanceThread(s, t, ok), t, Denied(s, Advance(t, ok), t, denied))
  {
    hide Pos;
  }

  lemma OnlyDenialFails(s: State, t: Tid, ok: bool, denied: bool)
    requires Defined(s, t) && Agrees(s, t, denied) && !s.threads[t].pc.Lookup? && !s.threads[t].pc.MigrateStore?
    ensures Agrees(AdvanceThread(s, t, ok), t, Denied(s, Advance(t, ok), t, denied))
  {
    hide Pos, Probed, Half, Limit, NewCapacity;
  }

  lemma OtherAgrees(s: State, step: Step, t: Tid, denied: bool)
    requires Enabled(s, step) && step.t != t && Agrees(s, t, denied)
    ensures Agrees(Apply(s, step), t, denied)
  {
    hide Failing;
    ThreadsStay(s, step, t);
  }

  /** A step changes its own thread only. */
  lemma ThreadsStayAll(s: State, t: Tid, ok: bool)
    requires Defined(s, t)
    ensures var s' := AdvanceThread(s, t, ok); t in s.threads && t in s'.threads && s'.threads == s.threads[t := s'.threads[t]]
  {
    hide Probed, Pos, Half, Limit, NewCapacity, Shape;
    var pc := s.threads[t].pc;
    if pc.Migrate? || pc.MigrateCas? || pc.MigrateStore? || pc.Insert? || pc.InsertCas? || pc.InsertStore? {
    } else if pc.Lookup? || pc.CountUp? || pc.TestLock? || pc.Reload? || pc.Allocate? || pc.FailCount? {
    }
  }

  lemma ThreadsStay(s: State, step: Step, t: Tid)
    requires Enabled(s, step)
    ensures (t in Apply(s, step).threads <==> t in s.threads)
    ensures step.t != t && t in s.threads ==> Apply(s, step).threads[t] == s.threads[t]
  {
    hide AdvanceThread, Defined;
    if step.Advance? {
      ThreadsStayAll(s, step.t, step.ok);
    }
  }

  lemma StepAgrees(s: State, a: Aux, step: Step, t: Tid, denied: bool)
    requires Inv(s, a) && Enabled(s, step) && Agrees(s, t, denied)
    ensures Agrees(Apply(s, step), t, Denied(s, step, t, denied))
  {
    hide Inv, AdvanceThread, Defined;
    if step.t != t {
      OtherAgrees(s, step, t, denied);
    } else if step.Advance? {
      AdvanceAgrees(s, a, t, step.ok, denied);
    }
  }

  lemma {:induction false} RunAgrees(s: State, a: Aux, steps: seq<Step>, t: Tid, denied: bool)
    requires Inv(s, a) && Feasible(s, steps) && Agrees(s, t, denied)
    ensures Agrees(Run(s, steps), t, CallDenied(s, steps, t, denied))
    decreases |steps|
  {
    hide Inv, Agrees, Denied, Apply, Enabled;
    if steps != [] {
      StepAgrees(s, a, steps[0], t, denied);
      var a' := StepKeeps(s, a, steps[0]);
      RunAgrees(Apply(s, steps[0]), a', steps[1..], t, Denied(s, steps[0], t, denied));
    }
  }

  /** A finished call has no producer if and only if one of its own allocations failed. */
  lemma FailsOnlyIfDenied(s0: State, steps: seq<Step>, t: Tid)
    requires Init(s0) && Feasible(s0, steps) && t in s0.threads
    requires t in Run(s0, steps).threads && Run(s0, steps).threads[t].pc.Done?
    ensures Run(s0, steps).threads[t].pc.result.None? <==> CallDenied(s0, steps, t, false)
  {
    InitInv(s0);
    RunAgrees(s0, Aux(map[], map[]), steps, t, false);
  }

  // ---------- the resize lock ----------

  /** The lock is held only while some thread is resizing. */
  ghost predicate LockHeld(s: State) { s.lock ==> exists t :: t in s.threads && InLock(s.threads[t].pc) }

  lemma AdvanceHolds(s: State, a: Aux, t: Tid, ok: bool)
    requires Inv(s, a) && Defined(s, t) && LockHeld(s)
    ensures LockHeld(AdvanceThread(s, t, ok))
  {
    hide Inv, Probed, Pos;
    ThreadsStayAll(s, t, ok);
    var s' := AdvanceThread(s, t, ok);
    if s'.lock {
      if InLock(s'.threads[t].pc) {
      } else {
        var u :| u in s.threads && InLock(s.threads[u].pc);
        assert u != t && s'.threads[u] == s.threads[u];
      }
    }
  }

  lemma StepHolds(s: State, a: Aux, step: Step)
    requires Inv(s, a) && Enabled(s, step) && LockHeld(s)
    ensures LockHeld(Apply(s, step))
  {
    if step.Advance? {
      AdvanceHolds(s, a, step.t, step.ok);
    } else if s.lock {
      hide Inv;
      var u :| u in s.threads && InLock(s.threads[u].pc);
      assert Apply(s, step).threads[u] == s.threads[u];
    }
  }

  lemma {:induction false} RunHolds(s: State, a: Aux, steps: seq<Step>) returns (a': Aux)
    requires Inv(s, a) && Feasible(s, steps) && LockHeld(s)
    ensures Inv(Run(s, steps), a') && LockHeld(Run(s, steps))
    decreases |steps|
  {
    hide Inv, LockHeld, Apply, Enabled;
    a' := a;
    if steps != [] {
      StepHolds(s, a, steps[0]);
      a' := StepKeeps(s, a, steps[0]);
      a' := RunHolds(Apply(s, steps[0]), a', steps[1..]);
    }
  }

  // ---------- a call on its own ----------

  ghost predicate OthersIdle(s: State, t: Tid) { forall u :: u in s.threads && u != t ==> s.threads[u].pc.Idle? }

  /** Where a call on its own can be, when all its allocations succeed: it never has to wait for the lock. */
  predicate OnTrack(s: State, pc: Pc) {
    match pc
    case Idle => false
    case Lookup(main, h, n) => true
    case Migrate(main, n, value) => true
    case MigrateCas(main, n, value) => true
    case MigrateStore(main, n, value) => true
    case CountUp(main) => true
    case TestLock(main, newCount) => true
    case Reload(newCount) => true
    case Allocate(main, newCount) => true
    case FailCount => false
    case FailUnlock => false
    case Unlock(main, newCount) => main < |s.tables| && newCount < Half(s.tables[main].capacity)
    case Check(main, newCount) => main < |s.tables| && newCount < Half(s.tables[main].capacity)
    case LoadMain(newCount) => false
    case Create(main) => true
    case CreateFail => false
    case Insert(main, n, producer) => true
    case InsertCas(main, n, producer) => true
    case InsertStore(main, n, producer) => true
    case Done(result) => result.Some?
  }

  /** What gets smaller with every step of such a call: the stage it is at, the table it looks into, and the probes
      that are left. */
  function Stage(pc: Pc): nat {
    match pc
    case Idle => 0
    case Lookup(main, h, n) => 12
    case Migrate(main, n, value) => 11
    case MigrateCas(main, n, value) => 11
    case MigrateStore(main, n, value) => 1
    case CountUp(main) => 10
    case TestLock(main, newCount) => 9
    case Reload(newCount) => 8
    case Allocate(main, newCount) => 7
    case FailCount => 0
    case FailUnlock => 0
    case Unlock(main, newCount) => 6
    case Check(main, newCount) => 5
    case LoadMain(newCount) => 0
    case Create(main) => 4
    case CreateFail => 0
    case Insert(main, n, producer) => 3
    case InsertCas(main, n, producer) => 3
    case InsertStore(main, n, producer) => 1
    case Done(result) => 0
  }

  function Level(pc: Pc): nat { if pc.Lookup? then pc.h else 0 }

  function Left(s: State, pc: Pc): int {
    if pc.Lookup? && pc.h < |s.tables| then s.tables[pc.h].capacity - pc.n
    else if (pc.Migrate? || pc.Insert?) && pc.main < |s.tables| then 2 * (s.tables[pc.main].capacity - pc.n) + 1
    else if (pc.MigrateCas? || pc.InsertCas?) && pc.main < |s.tables| then 2 * (s.tables[pc.main].capacity - pc.n)
    else 0
  }

  lemma LeftIsPositive(s: State, a: Aux, t: Tid)
    requires Inv(s, a) && Defined(s, t)
    ensures Left(s, s.threads[t].pc) >= 0
  {
    hide TableOk, LockOk, MineOk, CountOk, ThreadOk;
    var pc := s.threads[t].pc;
    if pc.Lookup? {
      ThreadProbesEnd(s, a, t, pc.h, pc.n);
    } else if pc.Migrate? || pc.MigrateCas? || pc.Insert? || pc.InsertCas? {
      ThreadProbesEnd(s, a, t, pc.main, pc.n);
    }
  }

  predicate Smaller(s: State, pc: Pc, s': State, pc': Pc) {
    || Stage(pc') < Stage(pc)
    || (Stage(pc') == Stage(pc) && Level(pc') < Level(pc))
    || (Stage(pc') == Stage(pc) && Level(pc') == Level(pc) && Left(s', pc') < Left(s, pc))
  }

  ghost predicate Lone(s: State, t: Tid) {
    t in s.threads && OthersIdle(s, t) && (s.lock ==> InLock(s.threads[t].pc)) && OnTrack(s, s.threads[t].pc)
  }

  lemma LoneFound(s: State, t: Tid)
    requires Defined(s, t) && Lone(s, t) && (s.threads[t].pc.Lookup? || s.threads[t].pc.MigrateStore?)
    requires var pc := s.threads[t].pc;
      && (pc.Lookup? && Probed(s, t, pc.h, pc.n).key == Some(t) ==> Probed(s, t, pc.h, pc.n).value.Some?)
      && (pc.MigrateStore? ==> pc.value.Some?)
    ensures var s' := AdvanceThread(s, t, true);
      t in s'.threads && OnTrack(s', s'.threads[t].pc) && Smaller(s, s.threads[t].pc, s', s'.threads[t].pc)
  {
    hide Pos, Probed, OthersIdle;
  }

  lemma LoneInserts(s: State, t: Tid)
    requires Defined(s, t) && Lone(s, t)
    requires var pc := s.threads[t].pc; pc.Migrate? || pc.MigrateCas? || pc.Insert? || pc.InsertCas? || pc.InsertStore?
    ensures var s' := AdvanceThread(s, t, true);
      t in s'.threads && OnTrack(s', s'.threads[t].pc) && Smaller(s, s.threads[t].pc, s', s'.threads[t].pc)
  {
    hide Pos, Probed, OthersIdle;
  }

  lemma LoneCounts(s: State, t: Tid)
    requires Defined(s, t) && Lone(s, t)
    requires var pc := s.threads[t].pc;
      pc.CountUp? || pc.TestLock? || pc.Reload? || pc.Allocate? || pc.Unlock? || pc.Check? || pc.Create?
    ensures var s' := AdvanceThread(s, t, true);
      t in s'.threads && OnTrack(s', s'.threads[t].pc) && Smaller(s, s.threads[t].pc, s', s'.threads[t].pc)
  {
    hide Pos, Probed, OthersIdle;
  }

  lemma LoneLock(s: State, t: Tid)
    requires Defined(s, t) && (s.lock ==> InLock(s.threads[t].pc))
    ensures var s' := AdvanceThread(s, t, true); t in s'.threads && (s'.lock ==> InLock(s'.threads[t].pc))
  {
    hide Pos, Probed, Half, Limit, NewCapacity, Shape;
  }

  lemma LoneStep(s: State, a: Aux, t: Tid)
    requires Inv(s, a) && Defined(s, t) && Lone(s, t) && !s.threads[t].pc.Done?
    ensures var s' := AdvanceThread(s, t, true); Lone(s', t) && Smaller(s, s.threads[t].pc, s', s'.threads[t].pc)
  {
    FoundIsSome(s, a, t);
    hide Inv, Smaller, AdvanceThread, Defined;
    ThreadsStayAll(s, t, true);
    LoneLock(s, t);
    var pc := s.threads[t].pc;
    if pc.Lookup? || pc.MigrateStore? {
      LoneFound(s, t);
    } else if pc.Migrate? || pc.MigrateCas? || pc.Insert? || pc.InsertCas? || pc.InsertStore? {
      LoneInserts(s, t);
    } else {
      LoneCounts(s, t);
    }
  }

  lemma CanGoOn(s: State, a: Aux, t: Tid)
    requires Inv(s, a) && t in s.threads && !s.threads[t].pc.Idle?
    ensures Defined(s, t)
  {
    assert ThreadOk(s, a, t);
    assert t in a.reserved ==> a.reserved != map[];
  }

  function Rest(t: Tid, k: nat): seq<Step> { seq(k, _ => Advance(t, true)) }

  lemma RestRuns(s: State, t: Tid, k: nat)
    requires Defined(s, t) && Feasible(AdvanceThread(s, t, true), Rest(t, k))
    ensures Feasible(s, Rest(t, k + 1)) && Run(s, Rest(t, k + 1)) == Run(AdvanceThread(s, t, true), Rest(t, k))
  {
    hide AdvanceThread, Defined;
    assert Rest(t, k + 1)[0] == Advance(t, true) && Rest(t, k + 1)[1..] == Rest(t, k);
  }

  lemma NoRest(s: State, t: Tid)
    ensures Feasible(s, Rest(t, 0)) && Run(s, Rest(t, 0)) == s
  {
  }

  lemma {:induction false} LoneEnds(s: State, a: Aux, t: Tid) returns (k: nat)
    requires Inv(s, a) && Lone(s, t)
    ensures Feasible(s, Rest(t, k))
    ensures var s' := Run(s, Rest(t, k)); t in s'.threads && s'.threads[t].pc.Done? && s'.threads[t].pc.result.Some?
    decreases Stage(s.threads[t].pc), Level(s.threads[t].pc), Left(s, s.threads[t].pc)
  {
    hide Feasible, Run, Rest;
    if s.threads[t].pc.Done? {
      k := 0;
      NoRest(s, t);
    } else {
      CanGoOn(s, a, t);
      LeftIsPositive(s, a, t);
      hide Inv, Lone, AdvanceThread, Defined, Stage, Level, Left;
      LoneStep(s, a, t);
      var s' := AdvanceThread(s, t, true);
      var a' := AdvanceKeeps(s, a, t, true);
      k := LoneEnds(s', a', t);
      RestRuns(s, t, k);
      k := k + 1;
    }
  }

  /** When nobody else is inside and no allocation fails, a call runs to its end on its own and returns a producer:
      in particular the lock has been given back. */
  lemma LoneCall(s0: State, steps: seq<Step>, t: Tid) returns (k: nat)
    requires Init(s0) && Feasible(s0, steps)
    requires forall u :: u in Run(s0, steps).threads ==> Run(s0, steps).threads[u].pc.Idle?
    requires t in Run(s0, steps).threads
    ensures var s := Run(s0, steps);
      && !s.lock && Feasible(s, [Call(t)] + Rest(t, k))
      && var s' := Run(s, [Call(t)] + Rest(t, k));
         t in s'.threads && s'.threads[t].pc.Done? && s'.threads[t].pc.result.Some?
  {
    InitInv(s0);
    var a := RunHolds(s0, Aux(map[], map[]), steps);
    var s := Run(s0, steps);
    KeepCall(s, a, t);
    var s1 := Apply(s, Call(t));
    hide Inv;
    k := LoneEnds(s1, a, t);
    assert ([Call(t)] + Rest(t, k))[1..] == Rest(t, k);
  }

  // ---------- the newest table ----------

  /** The newest table when thread `t`'s current call began. */
  function MainAt(s: State, step: Step, t: Tid, was: int): int { if step == Call(t) then |s.tables| - 1 else was }

  function CallMain(s: State, steps: seq<Step>, t: Tid, was: int): int
    requires Feasible(s, steps)
    decreases |steps|
  {
    if steps == [] then was else CallMain(Apply(s, steps[0]), steps[1..], t, MainAt(s, steps[0], t, was))
  }

  ghost predicate InNewTable(s: State, t: Tid, main: int) { exists g: nat, i: int :: main <= g && KeyAt(s, g, i, t) }

  /** A call works on the table that was the newest when it began, or on newer ones. */
  ghost predicate UpToDate(s: State, t: Tid, main: int) {
    t in s.threads && Shape(s) && main < |s.tables| &&
    match s.threads[t].pc
    case Idle => true
    case Lookup(m, h, n) => main <= m && h <= m
    case Migrate(m, n, value) => main <= m
    case MigrateCas(m, n, value) => main <= m
    case MigrateStore(m, n, value) => InNewTable(s, t, main)
    case CountUp(m) => main <= m
    case TestLock(m, newCount) => main <= m
    case Reload(newCount) => true
    case Allocate(m, newCount) => main <= m
    case FailCount => true
    case FailUnlock => true
    case Unlock(m, newCount) => main <= m
    case Check(m, newCount) => main <= m
    case LoadMain(newCount) => true
    case Create(m) => main <= m
    case CreateFail => true
    case Insert(m, n, producer) => main <= m
    case InsertCas(m, n, producer) => main <= m
    case InsertStore(m, n, producer) => InNewTable(s, t, main)
    case Done(result) => result.Some? ==> InNewTable(s, t, main)
  }

  /** Keys are never removed, and tables stay. */
  lemma KeysStay(s: State, t: Tid, ok: bool, h: nat, i: int, u: Tid)
    requires Defined(s, t) && KeyAt(s, h, i, u)
    ensures KeyAt(AdvanceThread(s, t, ok), h, i, u)
  {
    hide Pos, Half, Limit, NewCapacity;
  }

  lemma TablesStay(s: State, t: Tid, ok: bool)
    requires Defined(s, t)
    ensures Shape(AdvanceThread(s, t, ok)) && |AdvanceThread(s, t, ok).tables| >= |s.tables|
  {
    hide Pos, Probed, Half, Limit;
  }

  lemma NewTableStays(s: State, t: Tid, ok: bool, u: Tid, main: int)
    requires Defined(s, t) && InNewTable(s, u, main)
    ensures InNewTable(AdvanceThread(s, t, ok), u, main)
  {
    hide AdvanceThread, Defined, KeyAt;
    var g: nat, i: int :| main <= g && KeyAt(s, g, i, u);
    KeysStay(s, t, ok, g, i, u);
  }

  lemma OwnUpToDate(s: State, t: Tid, ok: bool, main: int)
    requires Defined(s, t) && UpToDate(s, t, main)
    ensures UpToDate(AdvanceThread(s, t, ok), t, main)
  {
    TablesStay(s, t, ok);
    var pc, s' := s.threads[t].pc, AdvanceThread(s, t, ok);
    if pc.MigrateStore? || pc.InsertStore? || (pc.Done? && pc.result.Some?) {
      NewTableStays(s, t, ok, t, main);
      OwnEnds(s, t, ok, main);
    } else if pc.Lookup? {
      OwnLooks(s, t, ok, main);
    } else if pc.MigrateCas? || pc.InsertCas? {
      OwnInserts(s, t, ok, main);
    } else {
      OwnMoves(s, t, ok, main);
    }
  }

  lemma OwnEnds(s: State, t: Tid, ok: bool, main: int)
    requires Defined(s, t) && UpToDate(s, t, main) && Shape(AdvanceThread(s, t, ok))
    requires |AdvanceThread(s, t, ok).tables| >= |s.tables| && InNewTable(AdvanceThread(s, t, ok), t, main)
    requires var pc := s.threads[t].pc; pc.MigrateStore? || pc.InsertStore? || pc.Done?
    ensures UpToDate(AdvanceThread(s, t, ok), t, main)
  {
    hide Pos, Probed, Put, InNewTable, Shape;
  }

  lemma OwnLooks(s: State, t: Tid, ok: bool, main: int)
    requires Defined(s, t) && UpToDate(s, t, main) && Shape(AdvanceThread(s, t, ok)) && s.threads[t].pc.Lookup?
    requires |AdvanceThread(s, t, ok).tables| >= |s.tables|
    ensures UpToDate(AdvanceThread(s, t, ok), t, main)
  {
    hide Pos;
    var pc, s' := s.threads[t].pc, AdvanceThread(s, t, ok);
    if Probed(s, t, pc.h, pc.n).key == Some(t) && pc.h == pc.main {
      assert KeyAt(s', pc.h, Pos(s, t, pc.h, pc.n), t);
    }
  }

  lemma OwnInserts(s: State, t: Tid, ok: bool, main: int)
    requires Defined(s, t) && UpToDate(s, t, main) && Shape(AdvanceThread(s, t, ok))
    requires |AdvanceThread(s, t, ok).tables| >= |s.tables| && (s.threads[t].pc.MigrateCas? || s.threads[t].pc.InsertCas?)
    ensures UpToDate(AdvanceThread(s, t, ok), t, main)
  {
    hide Pos;
    var pc, s' := s.threads[t].pc, AdvanceThread(s, t, ok);
    if Probed(s, t, pc.main, pc.n).key == None {
      assert KeyAt(s', pc.main, Pos(s, t, pc.main, pc.n), t);
    }
  }

  lemma OwnMoves(s: State, t: Tid, ok: bool, main: int)
    requires Defined(s, t) && UpToDate(s, t, main) && Shape(AdvanceThread(s, t, ok))
    requires |AdvanceThread(s, t, ok).tables| >= |s.tables|
    requires var pc := s.threads[t].pc;
      !pc.MigrateStore? && !pc.InsertStore? && !pc.Lookup? && !pc.MigrateCas? && !pc.InsertCas? && !(pc.Done? && pc.result.Some?)
    ensures UpToDate(AdvanceThread(s, t, ok), t, main)
  {
    hide Pos, Probed, InNewTable, Half, Limit, NewCapacity, Shape;
  }

  lemma OthersUpToDate(s: State, t: Tid, ok: bool, u: Tid, main: int)
    requires Defined(s, t) && t != u && UpToDate(s, u, main)
    ensures UpToDate(AdvanceThread(s, t, ok), u, main)
  {
    hide AdvanceThread, Defined, InNewTable, Shape;
    TablesStay(s, t, ok);
    ThreadsStayAll(s, t, ok);
    if InNewTable(s, u, main) {
      NewTableStays(s, t, ok, u, main);
    }
  }

  lemma StepUpToDate(s: State, step: Step, t: Tid, main: int)
    requires Enabled(s, step) && UpToDate(s, t, main)
    ensures UpToDate(Apply(s, step), t, MainAt(s, step, t, main))
  {
    hide AdvanceThread, Defined, InNewTable;
    if step.Advance? {
      if step.t == t {
        OwnUpToDate(s, t, step.ok, main);
      } else {
        OthersUpToDate(s, step.t, step.ok, t, main);
      }
    } else if step.t != t {
      CallLeaves(s, step.t, t, main);
    }
  }

  lemma CallLeaves(s: State, t: Tid, u: Tid, main: int)
    requires Enabled(s, Call(t)) && t != u && UpToDate(s, u, main)
    ensures UpToDate(Apply(s, Call(t)), u, main)
  {
    if InNewTable(s, u, main) {
      var g: nat, i: int :| main <= g && KeyAt(s, g, i, u);
      assert KeyAt(Apply(s, Call(t)), g, i, u);
    }
  }

  lemma {:induction false} RunUpToDate(s: State, steps: seq<Step>, t: Tid, main: int)
    requires Feasible(s, steps) && UpToDate(s, t, main)
    ensures UpToDate(Run(s, steps), t, CallMain(s, steps, t, main))
    decreases |steps|
  {
    hide UpToDate, MainAt, Apply, Enabled;
    if steps != [] {
      StepUpToDate(s, steps[0], t, main);
      RunUpToDate(Apply(s, steps[0]), steps[1..], t, MainAt(s, steps[0], t, main));
    }
  }

  /** After a call that has returned a producer, the thread's key is in the table that was the newest when the call
      began, or in a newer one, so that the next call need not search the older tables. */
  lemma FoundInNewTable(s0: State, steps: seq<Step>, t: Tid)
    requires Init(s0) && Feasible(s0, steps) && t in s0.threads && t in Run(s0, steps).threads
    requires Run(s0, steps).threads[t].pc.Done? && Run(s0, steps).threads[t].pc.result.Some?
    ensures exists g: nat :: CallMain(s0, steps, t, 0) <= g && InTable(Run(s0, steps), g, t)
  {
    RunUpToDate(s0, steps, t, 0);
    var s, main := Run(s0, steps), CallMain(s0, steps, t, 0);
    var g: nat, i: int :| main <= g && KeyAt(s, g, i, t);
    assert InTable(s, g, t);
  }

  // ---------- how large the tables get ----------

  /** The count that a thread carries. */
  function Carried(pc: Pc): int {
    if pc.TestLock? || pc.Reload? || pc.Allocate? || pc.Unlock? || pc.Check? || pc.LoadMain? then pc.newCount else 0
  }

  function Largest(n: nat): nat { if 4 * n < INITIAL_SIZE then INITIAL_SIZE else 4 * n }

  /** Tables have even capacities of at most four times the number of threads; a count that a thread carries is at most
      that number, and a thread that is about to add a table has one that half of the newest does not exceed. */
  ghost predicate SpaceOk(s: State) {
    && (forall h :: 0 <= h < |s.tables| ==> s.tables[h].capacity % 2 == 0 && 0 < s.tables[h].capacity <= Largest(|s.threads|))
    && (forall t :: t in s.threads ==> Carried(s.threads[t].pc) <= |s.threads|)
    && (forall t :: t in s.threads && s.threads[t].pc.Allocate? ==>
          s.threads[t].pc.main < |s.tables| && s.threads[t].pc.newCount >= Half(s.tables[s.threads[t].pc.main].capacity))
  }

  lemma {:induction false} NewCapacityBound(capacity: nat, newCount: nat)
    requires capacity > 0 && capacity % 2 == 0 && capacity <= 4 * newCount
    ensures NewCapacity(capacity, newCount) <= 4 * newCount && NewCapacity(capacity, newCount) % 2 == 0
    decreases newCount + 1 - Half(capacity)
  {
    if newCount >= Half(capacity) {
      NewCapacityBound(2 * capacity, newCount);
    }
  }

  lemma Fewer(reserved: map<Tid, nat>, threads: map<Tid, Thread>, t: Tid)
    requires (forall u :: u in reserved ==> u in threads) && t in threads && t !in reserved
    ensures |reserved| + 1 <= |threads|
  {
    FewerIn(reserved.Keys + {t}, threads.Keys);
    assert |reserved.Keys + {t}| == |reserved| + 1;
  }

  lemma {:induction false} FewerIn(x: set<Tid>, y: set<Tid>)
    requires x <= y
    ensures |x| <= |y|
    decreases x
  {
    if x != {} {
      var t :| t in x;
      FewerIn(x - {t}, y - {t});
    }
  }

  lemma CountLeavesRoom(s: State, a: Aux, t: Tid)
    requires Inv(s, a) && t in s.threads && s.threads[t].pc.CountUp?
    ensures s.count + 1 <= |s.threads|
  {
    hide TableOk, LockOk;
    assert ThreadOk(s, a, t);
    Fewer(a.reserved, s.threads, t);
  }

  lemma SameThreads(s: State, s': State, t: Tid)
    requires t in s.threads && t in s'.threads && s'.threads == s.threads[t := s'.threads[t]]
    ensures |s'.threads| == |s.threads|
  {
    assert s'.threads.Keys == s.threads.Keys;
  }

  predicate Fits(s: State, pc: Pc) {
    Carried(pc) <= |s.threads| && (pc.Allocate? ==> pc.main < |s.tables| && pc.newCount >= Half(s.tables[pc.main].capacity))
  }

  /** What a step of the thread does to the tables and to what it carries. */
  ghost predicate FitsAfter(s: State, t: Tid, s': State) {
    && t in s'.threads && Fits(s.(tables := s'.tables), s'.threads[t].pc) && |s'.tables| == |s.tables|
    && forall h :: 0 <= h < |s.tables| ==> s'.tables[h].capacity == s.tables[h].capacity
  }

  predicate Puts(pc: Pc) { pc.MigrateCas? || pc.MigrateStore? || pc.InsertCas? || pc.InsertStore? }

  lemma PutFits(s: State, t: Tid, ok: bool)
    requires Defined(s, t) && Fits(s, s.threads[t].pc) && Puts(s.threads[t].pc)
    ensures FitsAfter(s, t, AdvanceThread(s, t, ok))
  {
    hide Pos, Probed, Limit, Half, NewCapacity;
  }

  lemma MoveFits(s: State, t: Tid, ok: bool)
    requires Defined(s, t) && Fits(s, s.threads[t].pc) && !s.threads[t].pc.Allocate? && !Puts(s.threads[t].pc)
    requires s.threads[t].pc.CountUp? ==> s.count + 1 <= |s.threads|
    ensures FitsAfter(s, t, AdvanceThread(s, t, ok))
  {
    hide Pos, Probed, Limit, NewCapacity, Shape;
  }

  lemma StepFits(s: State, t: Tid, ok: bool)
    requires Defined(s, t) && Fits(s, s.threads[t].pc) && !s.threads[t].pc.Allocate?
    requires s.threads[t].pc.CountUp? ==> s.count + 1 <= |s.threads|
    ensures FitsAfter(s, t, AdvanceThread(s, t, ok))
  {
    hide FitsAfter, AdvanceThread;
    if Puts(s.threads[t].pc) {
      PutFits(s, t, ok);
    } else {
      MoveFits(s, t, ok);
    }
  }

  lemma AllocationFits(s: State, t: Tid, ok: bool)
    requires Defined(s, t) && SpaceOk(s) && s.threads[t].pc.Allocate?
    ensures var s' := AdvanceThread(s, t, ok);
      && t in s'.threads && Fits(s.(tables := s'.tables), s'.threads[t].pc) && |s'.tables| >= |s.tables|
      && (forall h :: 0 <= h < |s.tables| ==> s'.tables[h].capacity == s.tables[h].capacity)
      && (forall h :: |s.tables| <= h < |s'.tables| ==> s'.tables[h].capacity % 2 == 0 && 0 < s'.tables[h].capacity <= Largest(|s.threads|))
  {
    var pc := s.threads[t].pc;
    NewCapacityBound(2 * s.tables[pc.main].capacity, pc.newCount);
  }

  lemma AdvanceSpace(s: State, a: Aux, t: Tid, ok: bool)
    requires Inv(s, a) && Defined(s, t) && SpaceOk(s)
    ensures SpaceOk(AdvanceThread(s, t, ok))
  {
    if s.threads[t].pc.CountUp? {
      CountLeavesRoom(s, a, t);
    }
    hide Inv, Largest, NewCapacity;
    ThreadsStayAll(s, t, ok);
    SameThreads(s, AdvanceThread(s, t, ok), t);
    if s.threads[t].pc.Allocate? {
      AllocationFits(s, t, ok);
    } else {
      StepFits(s, t, ok);
    }
    hide AdvanceThread, Defined, Half;
  }

  lemma CallSpace(s: State, t: Tid)
    requires Enabled(s, Call(t)) && SpaceOk(s)
    ensures SpaceOk(Apply(s, Call(t)))
  {
    SameThreads(s, Apply(s, Call(t)), t);
  }

  lemma {:induction false} RunSpace(s: State, a: Aux, steps: seq<Step>)
    requires Inv(s, a) && Feasible(s, steps) && SpaceOk(s)
    ensures SpaceOk(Run(s, steps)) && |Run(s, steps).threads| == |s.threads|
    decreases |steps|
  {
    hide Inv, SpaceOk, AdvanceThread, Defined;
    if steps != [] {
      var step, s' := steps[0], Apply(s, steps[0]);
      var a' := StepKeeps(s, a, step);
      if step.Call? {
        CallSpace(s, step.t);
        SameThreads(s, s', step.t);
      } else {
        AdvanceSpace(s, a, step.t, step.ok);
        ThreadsStayAll(s, step.t, step.ok);
        SameThreads(s, s', step.t);
      }
      RunSpace(s', a', steps[1..]);
    }
  }

  /** No table is larger than four times the number of threads, or than the first one: a table is added only when the
      newest is half full. */
  lemma TablesStaySmall(s0: State, steps: seq<Step>, h: nat)
    requires Init(s0) && Feasible(s0, steps) && h < |Run(s0, steps).tables|
    ensures Run(s0, steps).tables[h].capacity <= Largest(|s0.threads|)
  {
    InitInv(s0);
    RunSpace(s0, Aux(map[], map[]), steps);
  }
}
