/** Calls on an implicit sub-queue come to an end, whatever the others do, and an enqueue fails only if it is refused
    something. */
module ImplicitProgress {
  import BI = BlockIndex
  import opened ImplicitQueue
  import opened ImplicitQueueInv
  import opened ImplicitRuns
  import IR = ImplicitRelease
  import opened ImplicitCalls

  // ---------- when an enqueue fails ----------

  /** The step refuses the producer a slot of the index, a larger index, or a block. */
  predicate Refuses(s: State, step: Step) {
    && step == Produce(Fail)
    && ((s.producer.PInsert? && |s.producer.got| < Needed(s.tail, |s.producer.items|)) || s.producer.PGrow? || s.producer.PTakeBlock?)
  }

  predicate Refused(s: State, steps: seq<Step>)
    requires Feasible(s, steps)
    decreases |steps|
  {
    steps != [] && (Refuses(s, steps[0]) || Refused(Apply(s, steps[0]), steps[1..]))
  }

  lemma MiddleTries(s: State, step: Step)
    requires Enabled(s, step) && !step.Enqueue? && !s.producer.PIdle? && Result(s, step) == []
    ensures var p' := Apply(s, step).producer; !p'.PIdle? && (Trying(p') <==> Trying(s.producer) && !Refuses(s, step))
  {
    hide BI.Shape, BI.EntryAt, BI.NewTail, BI.Rewind, BI.StoreTail, BI.StoreKey, BI.StoreValue, BI.Grow, UndoEntry, TailKey, WriteBlock;
    if !step.Produce? {
      hide ConsumeStep, ProduceStep;
      OthersLeaveProducer(s, step);
    }
  }

  lemma OthersLeaveProducer(s: State, step: Step)
    requires Enabled(s, step) && !step.Enqueue? && !step.Produce?
    ensures Apply(s, step).producer == s.producer
  {
    hide BI.Shape, BI.EntryAt, BI.StoreValue, NextSegment;
  }

  lemma LastTries(s: State, step: Step)
    requires Enabled(s, step) && Result(s, step) != []
    ensures Apply(s, step).producer.PIdle? && Result(s, step) == [Trying(s.producer)] && !Refuses(s, step)
  {
  }

  lemma {:induction false} IdleIsNotRefused(s: State, steps: seq<Step>)
    requires Feasible(s, steps) && NoCall(steps) && s.producer.PIdle?
    ensures !Refused(s, steps) && Results(s, steps) == []
    decreases |steps|
  {
    if steps != [] {
      IdleStep(s, steps[0]);
      IdleIsNotRefused(Apply(s, steps[0]), steps[1..]);
    }
  }

  lemma {:induction false} FailsIffRefused(s: State, steps: seq<Step>)
    requires Feasible(s, steps) && NoCall(steps) && !s.producer.PIdle? && Run(s, steps).producer.PIdle?
    ensures Results(s, steps) == [Trying(s.producer) && !Refused(s, steps)]
    decreases |steps|
  {
    hide Apply, Enabled, Trying, Result, Refuses;
    var s', rest := Apply(s, steps[0]), steps[1..];
    if Result(s, steps[0]) == [] {
      MiddleTries(s, steps[0]);
      FailsIffRefused(s', rest);
      assert [] + Results(s', rest) == Results(s', rest);
    } else {
      LastTries(s, steps[0]);
      IdleIsNotRefused(s', rest);
      assert Results(s, steps) == Result(s, steps[0]);
    }
  }

  /** A bulk enqueue that has returned has returned false if and only if it was refused a slot, a larger index or a
      block on the way. */
  lemma CallFailsIffRefused(s0: State, before: seq<Step>, items: seq<Elem>, call: seq<Step>)
    requires Init(s0) && Feasible(s0, before) && Run(s0, before).producer.PIdle?
    requires Feasible(Run(s0, before), [Enqueue(items)] + call) && NoCall(call)
    requires Run(Run(s0, before), [Enqueue(items)] + call).producer.PIdle?
    ensures var s, steps := Run(s0, before), [Enqueue(items)] + call;
      Results(s, steps) == [!Refused(s, steps)]
  {
    var s := Run(s0, before);
    CallStarts(s, items, call);
    hide Results, Run, Feasible;
    assert ([Enqueue(items)] + call)[1..] == call;
    FailsIffRefused(Apply(s, Enqueue(items)), call);
  }

  // ---------- an enqueue ends ----------

  /** What is left to do for the call that the producer is in, with `n` blocks to insert. */
  function Work(p: Producer, n: int): int {
    match p
    case PIdle => 0
    case PInsert(items, got) => 8 * (n - |got|) + 4 * n + |items| + 15
    case PGrow(items, got) => 8 * (n - |got|) + 4 * n + |items| + 14
    case PStoreKey(items, got, e) => 8 * (n - |got|) + 4 * n + |items| + 13
    case PStoreTail(items, got, e) => 8 * (n - |got|) + 4 * n + |items| + 12
    case PTakeBlock(items, got, e) => 8 * (n - |got|) + 4 * n + |items| + 11
    case PReset(items, got, e, block) => 8 * (n - |got|) + 4 * n + |items| + 10
    case PStoreBlock(items, got, e, block) => 8 * (n - |got|) + 4 * n + |items| + 9
    case PRewind(got, e) => 3 * |got| + 5
    case PClear(got, e) => 3 * |got| + 4
    case PUndoClear(got, k) => 2 * (|got| - k) + |got| + 3
    case PUndoRewind(got, k) => 2 * (|got| - k) + |got| + 2
    case PUndoFree(got, k) => |got| - k + 1
    case PWrite(items, got, j) => |items| - j + 1
  }

  function CallWork(s: State): int { Work(s.producer, if Trying(s.producer) then Needed(s.tail, |s.producer.items|) else 0) }

  lemma WorkShrinks(p: Producer, p': Producer, n: nat, choice: Choice)
    requires GoesOn(p, p', if p.PInsert? then n else 0, choice) && InRange(p)
    requires Trying(p) ==> if p.PInsert? || p.PWrite? then |p.got| <= n else |p.got| < n
    ensures Work(p', n) < Work(p, n)
  {
  }

  /** The writing position and the positions of the undo loops stay in range. */
  predicate InRange(p: Producer) { (p.PWrite? ==> p.j <= |p.items|) && (p.PUndoClear? || p.PUndoFree? ==> p.k <= |p.got|) }

  lemma WorkIsLeft(s: State)
    requires Counted(s) && InRange(s.producer) && !s.producer.PIdle?
    ensures CallWork(s) > 0
  {
    hide Needed;
  }

  lemma RangeStays(p: Producer, p': Producer, n: int, choice: Choice)
    requires GoesOn(p, p', n, choice) && InRange(p) && (p.PUndoRewind? ==> p.k < |p.got|)
    ensures InRange(p')
  {
  }

  lemma MiddleShrinks(s: State, step: Step)
    requires BI.Shape(s.ix) && Enabled(s, step) && !step.Enqueue? && Counted(s) && InRange(s.producer) && !s.producer.PIdle?
    requires Result(s, step) == []
    ensures var s' := Apply(s, step);
      && InRange(s'.producer) && if step.Produce? then CallWork(s') < CallWork(s) else CallWork(s') == CallWork(s)
  {
    hide Apply, Enabled, Needed, Result, GoesOn, Work, BI.Shape;
    if step.Produce? {
      ProducerGoesOn(s, step.choice);
      ChoiceShrinks(s, step.choice, Apply(s, step).producer);
    } else {
      OthersInTheMiddle(s, step);
    }
  }

  lemma ChoiceShrinks(s: State, choice: Choice, p': Producer)
    requires Counted(s) && InRange(s.producer)
    requires GoesOn(s.producer, p', if s.producer.PInsert? then Needed(s.tail, |s.producer.items|) else 0, choice)
    ensures InRange(p') && CallWork(s.(producer := p')) < CallWork(s)
  {
    hide Needed;
    var p := s.producer;
    var n: nat := if Trying(p) then Needed(s.tail, |p.items|) else 0;
    RangeStays(p, p', if p.PInsert? then n else 0, choice);
    WorkShrinks(p, p', n, choice);
  }

  /** How many steps of the producer there are. */
  function Produced(steps: seq<Step>): nat { if steps == [] then 0 else (if steps[0].Produce? then 1 else 0) + Produced(steps[1..]) }

  lemma {:induction false} IdleProducesNothing(s: State, steps: seq<Step>)
    requires Feasible(s, steps) && NoCall(steps) && s.producer.PIdle?
    ensures Produced(steps) == 0
    decreases |steps|
  {
    if steps != [] {
      IdleStep(s, steps[0]);
      IdleProducesNothing(Apply(s, steps[0]), steps[1..]);
    }
  }

  lemma {:induction false} WorkBounds(s: State, a: Aux, steps: seq<Step>)
    requires Good(s, a) && Feasible(s, steps) && AllProper(steps) && NoCall(steps)
    requires Counted(s) && InRange(s.producer) && !s.producer.PIdle?
    ensures Produced(steps) <= CallWork(s)
    decreases |steps|
  {
    hide Good, Counted, InRange, CallWork, Apply, Enabled, Result;
    WorkIsLeft(s);
    if steps != [] {
      var s', rest := Apply(s, steps[0]), steps[1..];
      var a' := ShapeStays(s, a, steps[0]);
      if Result(s, steps[0]) == [] {
        MiddleStep(s, steps[0]);
        MiddleShrinks(s, steps[0]);
        WorkBounds(s', a', rest);
      } else {
        LastStep(s, steps[0]);
        IdleProducesNothing(s', rest);
      }
    }
  }

  /** A bulk enqueue takes a bounded number of its own steps, whatever the others do. */
  lemma EnqueueEnds(s0: State, before: seq<Step>, items: seq<Elem>, call: seq<Step>)
    requires Init(s0) && Feasible(s0, before) && AllProper(before) && Run(s0, before).producer.PIdle?
    requires Feasible(Run(s0, before), [Enqueue(items)] + call) && AllProper(call) && NoCall(call)
    ensures Produced(call) <= 12 * Needed(Run(s0, before).tail, |items|) + |items| + 15
  {
    hide Good, Run, Feasible;
    var s := Run(s0, before);
    var a := Reachable(s0, before);
    CallStarts(s, items, call);
    StartKeeps(s, a, items);
    WorkBounds(Apply(s, Enqueue(items)), a, call);
  }

  // ---------- a dequeue ends ----------

  function Stage(at: At): nat {
    match at
    case LoadIndex => 7
    case LoadTail(h) => 6
    case LoadKey(h, tail) => 5
    case LoadBlock(h, slot) => 4
    case Read(h, slot, e, block) => 3
    case CountDone(h, slot, e, block) => 2
    case ClearEntry(h, slot, e, block) => 6
    case FreeBlock(h, slot, block) => 5
    case Done => 0
  }

  /** What is left to do for a dequeue. */
  function Left(c: Consumer): int { if c.Idle? then 0 else 6 * (c.job.end - c.job.seg) + (c.job.end - Pos(c.job)) + Stage(c.at) }

  lemma ConsumerShrinks(s: State, a: Aux, t: Tid)
    requires Good(s, a) && t in s.consumers && s.consumers[t].Busy? && !s.consumers[t].at.Done? && ConsumerDefined(s, t)
    ensures var s' := ConsumeStep(s, t);
      t in s'.consumers && s'.consumers[t].Busy? && Left(s'.consumers[t]) < Left(s.consumers[t])
      && s'.consumers[t].job.first == s.consumers[t].job.first && s'.consumers[t].job.end == s.consumers[t].job.end
  {
    hide BI.Inv, BlocksOk, ProducerOk, TailBlockOk, BI.Shape, BI.EntryAt, BI.LookupSlot, BI.StoreValue, Reaches, HasBlock;
    assert ConsumerOk(s, a, t);
    if s.consumers[t].at.CountDone? {
      IR.CountFits(s, a, t);
    }
  }

  /** How many steps thread `t` has taken in its current dequeue. */
  function OwnStep(step: Step, t: Tid, was: nat): nat {
    if step.Grant? && step.t == t then 0 else if step == Consume(t) then was + 1 else was
  }

  function OwnSteps(s: State, steps: seq<Step>, t: Tid, was: nat): nat
    requires Feasible(s, steps)
    decreases |steps|
  {
    if steps == [] then was else OwnSteps(Apply(s, steps[0]), steps[1..], t, OwnStep(steps[0], t, was))
  }

  predicate Bounded(s: State, t: Tid, own: nat) {
    t in s.consumers && (s.consumers[t].Busy? ==>
      own + Left(s.consumers[t]) <= 7 * (s.consumers[t].job.end - s.consumers[t].job.first) + 7)
  }

  lemma StepBounded(s: State, a: Aux, step: Step, t: Tid, own: nat)
    requires Good(s, a) && Enabled(s, step) && Bounded(s, t, own)
    ensures Bounded(Apply(s, step), t, OwnStep(step, t, own))
  {
    hide Good, BI.Shape, BI.EntryAt, BI.LookupSlot, BI.StoreValue;
    if step == Consume(t) && !s.consumers[t].at.Done? {
      hide ConsumeStep;
      ConsumerShrinks(s, a, t);
    } else if step.Produce? {
      hide ProduceStep, ProducerDefined, Left;
      ProduceCovers(s, step.choice);
    } else if step.Consume? && step.t != t {
      hide ConsumeStep, ConsumerDefined, Left;
      ConsumeCovers(s, step.t, 0);
    }
  }

  lemma {:induction false} RunBounded(s: State, a: Aux, steps: seq<Step>, t: Tid, own: nat)
    requires Good(s, a) && Feasible(s, steps) && AllProper(steps) && Bounded(s, t, own)
    ensures Bounded(Run(s, steps), t, OwnSteps(s, steps, t, own))
    decreases |steps|
  {
    hide Good, Bounded, Apply, Enabled, OwnStep;
    if steps != [] {
      StepBounded(s, a, steps[0], t, own);
      var a' := StepKeeps(s, a, steps[0]);
      RunBounded(Apply(s, steps[0]), a', steps[1..], t, OwnStep(steps[0], t, own));
    }
  }

  /** A dequeue of `n` elements takes at most `7 * n + 7` of its own steps to have them all and to have given back what
      it emptied, whatever the others do. */
  lemma DequeueEnds(s0: State, steps: seq<Step>, t: Tid)
    requires Init(s0) && Feasible(s0, steps) && AllProper(steps) && t in s0.consumers
    requires t in Run(s0, steps).consumers && Run(s0, steps).consumers[t].Busy?
    ensures var c, own := Run(s0, steps).consumers[t], OwnSteps(s0, steps, t, 0);
      && own <= 7 * (c.job.end - c.job.first) + 7
      && (own == 7 * (c.job.end - c.job.first) + 7 ==> c.at.Done?)
  {
    var a0 := InitGood(s0);
    RunBounded(s0, a0, steps, t, 0);
    var a := RunKeeps(s0, a0, steps);
    assert ConsumerOk(Run(s0, steps), a, t);
  }
}
