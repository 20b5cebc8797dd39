/** Runs of the producer hash: every thread always gets its own producer, and no table ever fills up. */
module ProducerHashRuns {
  import opened ProducerHash
  import opened ProducerHashSteps

  lemma AdvanceKeeps(s: State, a: Aux, t: Tid, ok: bool) returns (a': Aux)
    requires Inv(s, a) && Defined(s, t)
    ensures Inv(AdvanceThread(s, t, ok), a')
    ensures forall u :: u in a.mine ==> u in a'.mine && a'.mine[u] == a.mine[u]
  {
    a' := a;
    var pc := s.threads[t].pc;
    if Quiet(pc, ok) {
      KeepQuiet(s, a, t, ok);
    } else if pc.Lookup? {
      KeepLookup(s, a, t, ok);
    } else if pc.CountUp? {
      a' := KeepCountUp(s, a, t, ok);
    } else if pc.FailCount? || pc.CreateFail? {
      a' := KeepCountDown(s, a, t, ok);
    } else if pc.Create? {
      assert ThreadOk(s, a, t);
      a' := KeepCreate(s, a, t);
    } else if pc.Allocate? {
      KeepGrow(s, a, t);
    } else if Storer(pc) {
      KeepStore(s, a, t, ok);
    } else if Probing(s, t) {
      KeepProbe(s, a, t, ok);
    } else {
      KeepCas(s, a, t, ok);
    }
  }

  lemma StepKeeps(s: State, a: Aux, step: Step) returns (a': Aux)
    requires Inv(s, a) && Enabled(s, step)
    ensures Inv(Apply(s, step), a')
    ensures forall u :: u in a.mine ==> u in a'.mine && a'.mine[u] == a.mine[u]
  {
    if step.Call? {
      KeepCall(s, a, step.t);
      a' := a;
    } else {
      a' := AdvanceKeeps(s, a, step.t, step.ok);
    }
  }

  predicate Feasible(s: State, steps: seq<Step>)
    decreases |steps|
  {
    steps != [] ==> Enabled(s, steps[0]) && Feasible(Apply(s, steps[0]), steps[1..])
  }

  function Run(s: State, steps: seq<Step>): State
    requires Feasible(s, steps)
    decreases |steps|
  {
    if steps == [] then s else Run(Apply(s, steps[0]), steps[1..])
  }

  /** A call of thread `t` has returned the producer. */
  datatype Return = Return(t: Tid, producer: Producer)

  function Returned(s: State, step: Step): seq<Return> {
    if step.Advance? && step.t in s.threads && s.threads[step.t].pc.Done? && s.threads[step.t].pc.result.Some?
    then [Return(step.t, s.threads[step.t].pc.result.value)] else []
  }

  /** The successful calls of a run, in the order in which they return. */
  function Returns(s: State, steps: seq<Step>): seq<Return>
    requires Feasible(s, steps)
    decreases |steps|
  {
    if steps == [] then [] else Returned(s, steps[0]) + Returns(Apply(s, steps[0]), steps[1..])
  }

  ghost predicate AllMine(calls: seq<Return>, mine: map<Tid, Producer>) {
    forall i :: 0 <= i < |calls| ==> calls[i].t in mine && calls[i].producer == mine[calls[i].t]
  }

  lemma {:induction false} RunKeeps(s: State, a: Aux, steps: seq<Step>) returns (a': Aux)
    requires Inv(s, a) && Feasible(s, steps)
    ensures Inv(Run(s, steps), a') && AllMine(Returns(s, steps), a'.mine)
    ensures forall u :: u in a.mine ==> u in a'.mine && a'.mine[u] == a.mine[u]
    decreases |steps|
  {
    if steps == [] {
      a' := a;
    } else {
      var a1 := StepKeeps(s, a, steps[0]);
      a' := RunKeeps(Apply(s, steps[0]), a1, steps[1..]);
      ReturnedIsMine(s, a, steps[0]);
    }
  }

  lemma ReturnedIsMine(s: State, a: Aux, step: Step)
    requires Inv(s, a)
    ensures AllMine(Returned(s, step), a.mine)
  {
    assert Returned(s, step) != [] ==> ThreadOk(s, a, step.t);
  }

  lemma InitInv(s: State)
    requires Init(s)
    ensures Inv(s, Aux(map[], map[]))
  {
    var a := Aux(map[], map[]);
    EmptyTableOk(s, a, 0);
    assert forall m: nat :: Below(a.reserved, m) == {};
  }

  /** Two calls return the same producer exactly when the same thread made them. */
  lemma OneProducerPerThread(s: State, steps: seq<Step>, i: nat, j: nat)
    requires Init(s) && Feasible(s, steps) && i < |Returns(s, steps)| && j < |Returns(s, steps)|
    ensures Returns(s, steps)[i].producer == Returns(s, steps)[j].producer <==> Returns(s, steps)[i].t == Returns(s, steps)[j].t
  {
    InitInv(s);
    var a := RunKeeps(s, Aux(map[], map[]), steps);
    assert MineOk(Run(s, steps), a);
  }

  /** The loop the thread is in, if it is probing: the table, and how many slots it has probed. */
  predicate Probes(pc: Pc, h: nat, n: nat) {
    || (pc.Lookup? && pc.h == h && pc.n == n)
    || ((pc.Migrate? || pc.MigrateCas? || pc.Insert? || pc.InsertCas?) && pc.main == h && pc.n == n)
  }

  lemma ThreadProbesEnd(s: State, a: Aux, t: Tid, h: nat, n: nat)
    requires Shape(s) && t in s.threads && h < |s.tables| && TableOk(s, a, h) && CountOk(s, a) && ThreadOk(s, a, t)
    requires Probes(s.threads[t].pc, h, n)
    ensures n < s.tables[h].capacity
  {
    assert Packed(s, h, t, n);
    ProbesEnd(s, a, t, h, n);
  }

  /** Every table always has an empty slot, fewer than three quarters of it are used, and so no thread ever
      probes as many slots as there are: every probing loop ends. */
  lemma TablesHaveRoom(s: State, steps: seq<Step>, h: nat)
    requires Init(s) && Feasible(s, steps) && h < |Run(s, steps).tables|
    ensures var table := Run(s, steps).tables[h];
      && Used(table.slots) < table.capacity == |table.slots|
      && (Used(table.slots) == 0 || Used(table.slots) < Limit(table.capacity))
    ensures forall t, n: nat :: t in Run(s, steps).threads && Probes(Run(s, steps).threads[t].pc, h, n) ==>
      n < Run(s, steps).tables[h].capacity
  {
    InitInv(s);
    var a := RunKeeps(s, Aux(map[], map[]), steps);
    var s' := Run(s, steps);
    assert TableOk(s', a, h);
    TableHasRoom(s', a, h);
    forall t, n: nat | t in s'.threads && Probes(s'.threads[t].pc, h, n) ensures n < s'.tables[h].capacity {
      ThreadProbesEnd(s', a, t, h, n);
    }
  }

  /** No thread ever has nowhere to go, and the count never goes below zero. */
  lemma NeverStuck(s: State, steps: seq<Step>, t: Tid)
    requires Init(s) && Feasible(s, steps) && t in Run(s, steps).threads
    ensures Run(s, steps).threads[t].pc.Idle? || Defined(Run(s, steps), t)
  {
    InitInv(s);
    var a := RunKeeps(s, Aux(map[], map[]), steps);
    assert ThreadOk(Run(s, steps), a, t);
    assert t in a.reserved ==> a.reserved != map[];
  }
}
