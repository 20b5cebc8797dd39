/** Runs of an implicit producer's sub-queue: lookups never fail, every element granted is delivered once and
    is the one enqueued at its index, and no block is ever in two places. */
module ImplicitRuns {
  import opened ThreadSums
  import opened Ring
  import BI = BlockIndex
  import BIS = BlockIndexSteps
  import opened ImplicitQueue
  import opened ImplicitQueueInv
  import IC = ImplicitConsumers
  import IR = ImplicitRelease
  import IS = ImplicitSharing
  import IP = ImplicitProducer
  import IB = ImplicitBulk
  import IW = ImplicitPublish

  /** What a step makes visible to consumers. */
  function Published(s: State, step: Step): seq<Elem> {
    if step.Produce? && s.producer.PWrite? && s.producer.j >= |s.producer.items| then s.producer.items else []
  }

  predicate Feasible(s: State, steps: seq<Step>)
    decreases |steps|
  {
    steps != [] ==> Enabled(s, steps[0]) && Feasible(Apply(s, steps[0]), steps[1..])
  }

  function Run(s: State, steps: seq<Step>): State
    requires Feasible(s, steps)
    decreases |steps|
  {
    if steps == [] then s else Run(Apply(s, steps[0]), steps[1..])
  }

  /** A dequeue of at least one index.  `SubQueueZero` shows what becomes of the block otherwise. */
  predicate Proper(step: Step) { step.Grant? ==> step.n > 0 }

  predicate AllProper(steps: seq<Step>) { forall i :: 0 <= i < |steps| ==> Proper(steps[i]) }

  /** The items of all calls that have succeeded, in order. */
  function Log(s: State, steps: seq<Step>): seq<Elem>
    requires Feasible(s, steps)
    decreases |steps|
  {
    if steps == [] then [] else Published(s, steps[0]) + Log(Apply(s, steps[0]), steps[1..])
  }

  // ---------- every step keeps the invariant ----------

  lemma ProducerKeeps(s: State, a: Aux, choice: Choice) returns (a': Aux)
    requires Good(s, a) && ProducerDefined(s, choice)
    ensures a'.log == a.log + Published(s, Produce(choice)) && Good(ProduceStep(s, choice), a')
  {
    hide Good, ProduceStep;
    var p := s.producer;
    if p.PInsert? {
      a' := IP.KeepInsert(s, a, choice);
    } else if p.PGrow? {
      a' := IP.KeepGrow(s, a, choice);
    } else if p.PStoreKey? {
      a' := IP.KeepKey(s, a, choice);
    } else if p.PStoreTail? {
      a' := IP.KeepTail(s, a, choice);
    } else if p.PTakeBlock? {
      if choice.Take? {
        a' := IB.KeepTake(s, a, choice.block);
      } else {
        IP.KeepNoBlock(s, a);
        a' := a;
      }
    } else if p.PReset? {
      IB.KeepReset(s, a, choice);
      a' := a;
    } else if p.PStoreBlock? {
      a' := IB.KeepStore(s, a, choice);
    } else {
      a' := ProducerKeepsMore(s, a, choice);
    }
  }

  lemma ProducerKeepsMore(s: State, a: Aux, choice: Choice) returns (a': Aux)
    requires Good(s, a) && ProducerDefined(s, choice)
    requires var p := s.producer; p.PRewind? || p.PClear? || p.PUndoClear? || p.PUndoRewind? || p.PUndoFree? || p.PWrite?
    ensures a'.log == a.log + Published(s, Produce(choice)) && Good(ProduceStep(s, choice), a')
  {
    hide Good, ProduceStep;
    var p := s.producer;
    if p.PRewind? {
      a' := IP.KeepGiveUp(s, a, choice);
    } else if p.PClear? {
      a' := IP.KeepClear(s, a, choice);
    } else if p.PUndoClear? {
      if p.k < |p.got| {
        a' := IB.KeepUndoClear(s, a, choice);
      } else {
        a' := IP.KeepUndone(s, a, choice);
      }
    } else if p.PUndoRewind? {
      a' := IP.KeepUndoRewind(s, a, choice);
    } else if p.PUndoFree? {
      if p.k < |p.got| {
        a' := IB.KeepUndoFree(s, a, choice);
      } else {
        IP.KeepFreed(s, a, choice);
        a' := a;
      }
    } else if p.j < |p.items| {
      IW.KeepWrite(s, a, choice);
      a' := a;
    } else {
      a' := IW.KeepPublish(s, a, choice);
    }
  }

  lemma ConsumerKeeps(s: State, a: Aux, t: Tid) returns (a': Aux)
    requires Good(s, a) && t in s.consumers && s.consumers[t].Busy?
    ensures ConsumerDefined(s, t) && a'.log == a.log && Good(ConsumeStep(s, t), a')
  {
    a' := a;
    var at := s.consumers[t].at;
    if at.LoadIndex? {
      IC.KeepLoadIndex(s, a, t);
    } else if at.LoadTail? {
      IC.KeepLoadTail(s, a, t);
    } else if at.LoadKey? {
      IC.KeepLoadKey(s, a, t);
    } else if at.LoadBlock? {
      IC.KeepLoadBlock(s, a, t);
    } else if at.Read? {
      IC.KeepRead(s, a, t);
    } else if at.CountDone? {
      a' := IR.KeepCountDone(s, a, t);
    } else if at.ClearEntry? {
      a' := IR.KeepClearEntry(s, a, t);
    } else if at.FreeBlock? {
      a' := IR.KeepFreeBlock(s, a, t);
    } else {
      IC.KeepDone(s, a, t);
    }
  }

  lemma KeepEnqueue(s: State, a: Aux, items: seq<Elem>)
    requires Good(s, a) && s.producer.PIdle?
    ensures Good(s.(producer := PInsert(items, [])), a)
  {
    var s' := s.(producer := PInsert(items, []));
    IC.NothingExtends(s, a);
    IP.KeepIndexOnly(s, a, s', a);
  }

  lemma StepKeeps(s: State, a: Aux, step: Step) returns (a': Aux)
    requires Good(s, a) && Enabled(s, step) && Proper(step)
    ensures a'.log == a.log + Published(s, step) && Good(Apply(s, step), a')
  {
    hide Good, ProduceStep, ConsumeStep, ProducerDefined;
    a' := a;
    if step.Enqueue? {
      KeepEnqueue(s, a, step.items);
    } else if step.Produce? {
      a' := ProducerKeeps(s, a, step.choice);
    } else if step.Grant? {
      IS.KeepGrant(s, a, step.t, step.n);
    } else if step.Consume? {
      a' := ConsumerKeeps(s, a, step.t);
    } else if step.Obtain? {
      a' := IS.KeepObtain(s, a, step.block, step.cell);
    } else if step.Borrow? {
      a' := IS.KeepBorrow(s, a, step.block);
    } else if step.Scribble? {
      IS.KeepScribble(s, a, step.block, step.cell);
    } else {
      a' := IS.KeepGiveBack(s, a, step.block);
    }
  }

  lemma Appended(x: seq<Elem>, y: seq<Elem>, z: seq<Elem>)
    ensures x + (y + z) == x + y + z
  {
  }

  lemma {:induction false} RunKeeps(s: State, a: Aux, steps: seq<Step>) returns (a': Aux)
    requires Good(s, a) && Feasible(s, steps) && AllProper(steps)
    ensures a'.log == a.log + Log(s, steps) && Good(Run(s, steps), a')
    decreases |steps|
  {
    if steps == [] {
      a' := a;
    } else {
      var a1 := StepKeeps(s, a, steps[0]);
      a' := RunKeeps(Apply(s, steps[0]), a1, steps[1..]);
      Appended(a.log, Published(s, steps[0]), Log(Apply(s, steps[0]), steps[1..]));
    }
  }

  lemma InitGood(s: State) returns (a: Aux)
    requires Init(s)
    ensures Good(s, a) && a.log == []
  {
    a := Aux(BI.Aux([0], map[], 0, 0, 0, 0, BI.Closed), map[], []);
    BIS.InitKeeps();
  }

  lemma Reachable(s: State, steps: seq<Step>) returns (a: Aux)
    requires Init(s) && Feasible(s, steps) && AllProper(steps)
    ensures Good(Run(s, steps), a) && a.log == Log(s, steps)
  {
    a := InitGood(s);
    a := RunKeeps(s, a, steps);
  }

  // ---------- nothing fails ----------

  /** The assertions of the code on the way of consumer `t`: the entry it looks up has the wanted base and a block,
      and the count of a block does not go past its size. */
  predicate ConsumerAsserts(s: State, t: Tid)
    requires t in s.consumers && ConsumerDefined(s, t)
  {
    var job := s.consumers[t].job;
    match s.consumers[t].at
    case LoadIndex => true
    case LoadTail(h) => true
    case LoadKey(h, tail) =>
      var tailBase := s.ix.entries[BI.EntryAt(s.ix, h, tail)].key.b;
      var entry := s.ix.entries[BI.EntryAt(s.ix, h, BI.LookupSlot(s.ix, h, tail, tailBase, job.first / BLOCK_SIZE))];
      entry.key == BI.Base(job.first / BLOCK_SIZE) && entry.value.Ptr?
    case LoadBlock(h, slot) => true
    case Read(h, slot, e, block) => true
    case CountDone(h, slot, e, block) => s.blocks[block].done + (SegEnd(job) - job.seg) <= BLOCK_SIZE
    case ClearEntry(h, slot, e, block) => true
    case FreeBlock(h, slot, block) => true
    case Done => true
  }

  /** Those on the way of the producer: the slot behind the tail of a new index is unused, there is a block to chain
      a new one to, there is a block to write to, and an entry that it looks up to undo an insertion has the block. */
  predicate ProducerAsserts(s: State)
    requires BI.Shape(s.ix)
  {
    var p := s.producer;
    && (p.PGrow? ==> GrownSlotUnused(s.ix))
    && (p.PStoreBlock? && (s.tail % BLOCK_SIZE != 0 || p.got != []) ==> p.got != [] || s.tailBlock.Some?)
    && (p.PWrite? ==> s.tail % BLOCK_SIZE != 0 || p.got != [] || p.items == [])
    && (p.PUndoClear? && p.k < |p.got| ==>
          TailKey(s).Base? && s.ix.entries[UndoEntry(s, p.k)] == BI.Entry(BI.Base(BlocksFor(s.tail) + p.k), BI.Ptr(p.got[p.k])))
  }

  predicate GrownSlotUnused(ix: BI.Index)
    requires BI.Shape(ix)
  {
    var grown := BI.Grow(ix);
    BI.Shape(grown) && grown.entries[BI.EntryAt(grown, BI.Last(grown), BI.NewTail(grown))].key.Invalid?
  }

  /** In every reachable state the next access of every thread is to memory that exists and holds what the code
      asserts, and the head is not past the tail. */
  lemma NothingFails(s0: State, steps: seq<Step>)
    requires Init(s0) && Feasible(s0, steps) && AllProper(steps)
    ensures var s := Run(s0, steps);
      && (forall t :: t in s.consumers && s.consumers[t].Busy? ==> ConsumerDefined(s, t) && ConsumerAsserts(s, t))
      && (!s.producer.PIdle? ==> ProducerDefined(s, Go) || ProducerDefined(s, Fail))
      && BI.Shape(s.ix) && ProducerAsserts(s) && s.head <= s.tail
  {
    hide ConsumerAsserts, ProducerAsserts;
    var s := Run(s0, steps);
    var a := Reachable(s0, steps);
    forall t | t in s.consumers && s.consumers[t].Busy? ensures ConsumerDefined(s, t) && ConsumerAsserts(s, t) {
      var a' := ConsumerKeeps(s, a, t);
      ConsumerHolds(s, a, t);
    }
    if !s.producer.PIdle? {
      ProducerNeverFails(s, a);
    }
    ProducerHolds(s, a);
  }

  lemma ConsumerHolds(s: State, a: Aux, t: Tid)
    requires Good(s, a) && t in s.consumers && s.consumers[t].Busy? && ConsumerDefined(s, t)
    ensures ConsumerAsserts(s, t)
  {
    hide BI.Inv, Inv;
    if s.consumers[t].at.LoadKey? {
      IC.LookupHolds(s, a, t);
    } else if s.consumers[t].at.CountDone? {
      IR.CountFits(s, a, t);
    }
  }

  lemma ProducerHolds(s: State, a: Aux)
    requires Good(s, a)
    ensures BI.Shape(s.ix) && ProducerAsserts(s)
  {
    hide ConsumerOk, GrownSlotUnused, BI.KeysOk, BI.SharingOk, BI.ContentOk, BI.PeakOk, BI.OpenOk, BlocksOk;
    var p := s.producer;
    if p.PGrow? {
      BIS.KeepGrow(s.ix, a.ia);
      GrownUnused(s.ix);
    } else if p.PWrite? {
      NoneNeeded(s.tail, |p.items|);
    } else if p.PUndoClear? && p.k < |p.got| {
      IB.UndoFindsEntry(s, a);
      LiveEntry(s.ix, a.ia, a.ia.base + p.k);
    }
  }

  lemma GrownUnused(ix: BI.Index)
    requires BI.Shape(ix) && BI.Shape(BI.Grow(ix))
    requires BI.EntryAt(BI.Grow(ix), BI.Last(BI.Grow(ix)), BI.NewTail(BI.Grow(ix))) == |ix.entries|
    requires |BI.Grow(ix).entries| > |ix.entries| && BI.Grow(ix).entries[|ix.entries|].key.Invalid?
    ensures GrownSlotUnused(ix)
  {
  }

  lemma NoneNeeded(tail: nat, count: nat)
    ensures tail % BLOCK_SIZE == 0 && Needed(tail, count) == 0 ==> count == 0
  {
  }

  lemma LiveEntry(ix: BI.Index, ia: BI.Aux, b: int)
    requires BI.Inv(ix, ia) && b in ia.live
    ensures ia.live[b].entry < |ix.entries| && ix.entries[ia.live[b].entry] == BI.Entry(BI.Base(b), BI.Ptr(ia.live[b].block))
  {
    hide BI.KeysOk, BI.SharingOk, BI.PeakOk, BI.OpenOk;
    assert BI.LiveOk(ix, ia, b);
  }

  lemma ProducerNeverFails(s: State, a: Aux)
    requires Good(s, a) && !s.producer.PIdle?
    ensures ProducerDefined(s, Go) || ProducerDefined(s, Fail)
  {
    hide ConsumerOk, TailBlockOk;
    var p := s.producer;
    if p.PUndoClear? && p.k < |p.got| {
      IB.UndoFindsEntry(s, a);
    } else if p.PWrite? && p.j < |p.items| {
      WriteNeverFails(s, a);
    }
  }

  lemma WriteNeverFails(s: State, a: Aux)
    requires Inv(s, a) && IW.Writing(s)
    ensures Writable(s, WriteBlock(s, s.producer.got, s.tail + s.producer.j))
  {
    IW.WriteBlockIsIndexed(s, a);
    assert LiveBlock(s, a, IW.WriteBase(s));
  }

  /** The entry that a consumer computes, from whatever header and tail it loaded, is that of its block. */
  lemma LookupFinds(s0: State, steps: seq<Step>, t: Tid)
    requires Init(s0) && Feasible(s0, steps) && AllProper(steps)
    requires var s := Run(s0, steps); t in s.consumers && s.consumers[t].Busy? && s.consumers[t].at.LoadKey?
    ensures var s := Run(s0, steps);
      var job, at := s.consumers[t].job, s.consumers[t].at;
      && ConsumerDefined(s, t)
      && var key := s.ix.entries[BI.EntryAt(s.ix, at.h, at.tail)].key;
         var entry := s.ix.entries[BI.EntryAt(s.ix, at.h, BI.LookupSlot(s.ix, at.h, at.tail, key.b, job.first / BLOCK_SIZE))];
         entry.key == BI.Base(job.first / BLOCK_SIZE) && entry.value.Ptr?
  {
    var a := Reachable(s0, steps);
    IC.LookupHolds(Run(s0, steps), a, t);
  }

  // ---------- everything is delivered once ----------

  /** A dequeue has read the elements that were enqueued at its indices, and when done all of them. */
  lemma DequeuedIsEnqueued(s0: State, steps: seq<Step>, t: Tid)
    requires Init(s0) && Feasible(s0, steps) && AllProper(steps)
    requires var s := Run(s0, steps); t in s.consumers && s.consumers[t].Busy?
    ensures var job, log := Run(s0, steps).consumers[t].job, Log(s0, steps);
      && Pos(job) <= job.end <= Run(s0, steps).head <= Run(s0, steps).tail == |log| && job.out == log[job.first..Pos(job)]
      && (Run(s0, steps).consumers[t].at.Done? ==> job.out == log[job.first..job.end])
  {
    var a := Reachable(s0, steps);
    assert ConsumerOk(Run(s0, steps), a, t);
  }

  predicate Covers(c: Consumer, y: nat) { c.Busy? && c.job.first <= y < c.job.end }

  function CoverWeight(y: nat): Consumer -> nat { (c: Consumer) => if Covers(c, y) then 1 else 0 }

  /** What a step delivers for index `y`. */
  function Delivered(s: State, step: Step, y: nat): seq<Elem> {
    if step.Consume? && step.t in s.consumers && s.consumers[step.t].Busy? && s.consumers[step.t].at.Done?
       && Covers(s.consumers[step.t], y) && y - s.consumers[step.t].job.first < |s.consumers[step.t].job.out|
    then [s.consumers[step.t].job.out[y - s.consumers[step.t].job.first]] else []
  }

  function Received(s: State, steps: seq<Step>, y: nat): seq<Elem>
    requires Feasible(s, steps)
    decreases |steps|
  {
    if steps == [] then [] else Delivered(s, steps[0], y) + Received(Apply(s, steps[0]), steps[1..], y)
  }

  /** All of these are the `y`-th element of the log. */
  predicate AllAre(elems: seq<Elem>, log: seq<Elem>, y: nat) {
    (elems != [] ==> y < |log|) && forall i :: 0 <= i < |elems| ==> elems[i] == log[y]
  }

  lemma AllAreTogether(front: seq<Elem>, back: seq<Elem>, short: seq<Elem>, log: seq<Elem>, y: nat)
    requires AllAre(front, short, y) && AllAre(back, log, y) && |short| <= |log| && short == log[..|short|]
    ensures AllAre(front + back, log, y)
  {
    assert forall i :: 0 <= i < |front| ==> front[i] == short[y] == log[y];
  }

  /** A consumer's step keeps its range until it is done with it. */
  lemma ConsumeCovers(s: State, t: Tid, y: nat)
    requires t in s.consumers && s.consumers[t].Busy? && ConsumerDefined(s, t)
    ensures var s' := ConsumeStep(s, t);
      && t in s'.consumers && s'.consumers == s.consumers[t := s'.consumers[t]] && s'.head == s.head
      && (Covers(s'.consumers[t], y) <==> Covers(s.consumers[t], y) && !s.consumers[t].at.Done?)
  {
  }

  lemma ProduceCovers(s: State, choice: Choice)
    requires ProducerDefined(s, choice)
    ensures ProduceStep(s, choice).consumers == s.consumers && ProduceStep(s, choice).head == s.head
  {
  }

  lemma DeliveredIsRight(s: State, a: Aux, step: Step, y: nat)
    requires Inv(s, a)
    ensures AllAre(Delivered(s, step, y), a.log, y)
  {
    if Delivered(s, step, y) != [] {
      OutIsLog(s, a, step.t, y);
      assert Delivered(s, step, y) == [a.log[y]];
    }
  }

  lemma OutIsLog(s: State, a: Aux, t: Tid, y: nat)
    requires Inv(s, a) && t in s.consumers && s.consumers[t].Busy?
    requires s.consumers[t].job.first <= y < Pos(s.consumers[t].job)
    ensures y < |a.log| && s.consumers[t].job.out[y - s.consumers[t].job.first] == a.log[y]
  {
    hide BlocksOk, ProducerOk, TailBlockOk, AtOk;
    assert ConsumerOk(s, a, t);
  }

  /** An index below the head is being dequeued or has been delivered, never both. */
  lemma StepDelivers(s: State, a: Aux, step: Step, y: nat)
    requires Inv(s, a) && Enabled(s, step)
    requires Sum(s.consumers, CoverWeight(y)) <= (if y < s.head then 1 else 0)
    ensures var s' := Apply(s, step);
      |Delivered(s, step, y)| + Sum(s'.consumers, CoverWeight(y)) + (if y < s.head then 1 else 0)
        == Sum(s.consumers, CoverWeight(y)) + (if y < s'.head then 1 else 0)
    ensures AllAre(Delivered(s, step, y), a.log, y)
  {
    DeliveredIsRight(s, a, step, y);
    if step.Grant? {
      SumSet(s.consumers, CoverWeight(y), step.t, Apply(s, step).consumers[step.t]);
    } else if step.Consume? {
      ConsumeCovers(s, step.t, y);
      SumSet(s.consumers, CoverWeight(y), step.t, Apply(s, step).consumers[step.t]);
    } else if step.Produce? {
      ProduceCovers(s, step.choice);
    }
  }

  lemma {:induction false} RunDelivers(s: State, a: Aux, steps: seq<Step>, y: nat, log: seq<Elem>)
    requires Good(s, a) && Feasible(s, steps) && AllProper(steps) && log == a.log + Log(s, steps)
    requires Sum(s.consumers, CoverWeight(y)) <= (if y < s.head then 1 else 0)
    ensures var s' := Run(s, steps);
      |Received(s, steps, y)| + Sum(s'.consumers, CoverWeight(y)) + (if y < s.head then 1 else 0)
        == Sum(s.consumers, CoverWeight(y)) + (if y < s'.head then 1 else 0)
    ensures AllAre(Received(s, steps, y), log, y)
    decreases |steps|
  {
    if steps != [] {
      StepDelivers(s, a, steps[0], y);
      var a' := StepKeeps(s, a, steps[0]);
      Appended(a.log, Published(s, steps[0]), Log(Apply(s, steps[0]), steps[1..]));
      RunDelivers(Apply(s, steps[0]), a', steps[1..], y, log);
      AllAreTogether(Delivered(s, steps[0], y), Received(Apply(s, steps[0]), steps[1..], y), a.log, log, y);
    }
  }

  lemma ReceivedOnce(s0: State, a: Aux, steps: seq<Step>, y: nat)
    requires Init(s0) && Good(s0, a) && a.log == [] && Feasible(s0, steps) && AllProper(steps)
    requires forall t :: t in Run(s0, steps).consumers ==> Run(s0, steps).consumers[t].Idle?
    ensures |Received(s0, steps, y)| == if y < Run(s0, steps).head then 1 else 0
    ensures AllAre(Received(s0, steps, y), Log(s0, steps), y)
  {
    SumZero(s0.consumers, CoverWeight(y));
    SumZero(Run(s0, steps).consumers, CoverWeight(y));
    RunDelivers(s0, a, steps, y, Log(s0, steps));
  }

  /** When no dequeue is under way, every index granted has been delivered exactly once, with the element that
      was enqueued there, and nothing else has been delivered. */
  lemma EveryElementOnce(s0: State, steps: seq<Step>, y: nat)
    requires Init(s0) && Feasible(s0, steps) && AllProper(steps)
    requires forall t :: t in Run(s0, steps).consumers ==> Run(s0, steps).consumers[t].Idle?
    ensures var s := Run(s0, steps); s.head <= s.tail == |Log(s0, steps)|
    ensures Received(s0, steps, y) == if y < Run(s0, steps).head then [Log(s0, steps)[y]] else []
  {
    var a := InitGood(s0);
    ReceivedOnce(s0, a, steps, y);
    var a' := Reachable(s0, steps);
  }
}
