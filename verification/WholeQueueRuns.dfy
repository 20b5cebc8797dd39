/** Runs of a whole implicit sub-queue with its free list. */
module WholeQueueRuns {
  import S = SubQueue
  import SR = SubQueueRuns
  import T = Tickets
  import Q = ImplicitQueue
  import QI = ImplicitQueueInv
  import R = ImplicitRuns
  import IS = ImplicitSharing
  import BI = BlockIndex
  import F = FreeList
  import FR = FreeListRuns
  import opened WholeQueue

  // ---------- the invariant ----------

  /** The nodes of the free list are the blocks, and its callers own exactly those that are not in the pool. */
  ghost predicate Linked(s: State) {
    && (forall b :: b in s.list.nodes <==> b in s.sub.queue.blocks)
    && (forall b :: b in s.list.client <==> b in s.sub.queue.blocks && b !in s.sub.queue.pool)
  }

  /** What the proof knows beyond the state. */
  datatype Aux = Aux(sub: SR.Aux, list: F.Aux)

  ghost predicate Inv(s: State, a: Aux) { SR.Inv(s.sub, a.sub) && F.Inv(s.list, a.list) && Linked(s) }

  // ---------- blocks that change hands ----------

  /** What the queue gives back is no longer in its pool, but one of its blocks. */
  lemma FreedIsOut(q: Q.State, a: QI.Aux, step: Q.Step)
    requires QI.Good(q, a) && Q.Enabled(q, step) && Freed(q, step).Some?
    ensures Freed(q, step).value in q.blocks && Freed(q, step).value !in q.pool
  {
    IS.OwnersArePlaces(q, a);
    if step.Consume? {
      assert QI.ConsumerOk(q, a, step.t);
    }
  }

  /** So its caller owns it. */
  lemma FreedIsOwned(s: State, a: Aux, u: F.Tid, step: Q.Step)
    requires Inv(s, a) && Enabled(s, Free(u, step))
    ensures var n := Freed(s.sub.queue, step).value;
      F.Enabled(s.list, F.StartAdd(u, n)) && Given(s.list, u, n) == F.Apply(s.list, F.StartAdd(u, n))
  {
    hide F.Inv, QI.Good, T.Inv;
    FreedIsOut(s.sub.queue, a.sub.queue, step);
  }

  /** What `try_get` hands out is in the pool of the queue, whichever producer gets it. */
  lemma HandedOutIsFree(s: State, a: Aux, u: F.Tid, n: Block)
    requires Inv(s, a) && u in s.list.threads && s.list.threads[u] == F.GetReleaseTwo(n)
    ensures n in s.sub.queue.pool
  {
    hide QI.Good, T.Inv, F.NodeOk;
    FR.ReleasedIsNotHeld(s.list, a.list, u, n);
    assert F.ThreadOk(s.list, a.list, u);
  }

  // ---------- the steps of the parts ----------

  /** A step of the queue by which a producer gets a block, as a step of the sub-queue. */
  lemma GetsAlone(sub: S.State, step: Q.Step)
    requires Q.Enabled(sub.queue, step) && Gets(sub.queue, step)
    ensures S.Enabled(sub, S.Queue(step)) && S.Apply(sub, S.Queue(step)) == WithQueue(sub, Q.Apply(sub.queue, step))
    ensures R.Published(sub.queue, step) == []
  {
    hide Q.Apply, Q.Enabled;
    assert R.Published(sub.queue, step) == [] && !S.Ends(sub, step);
    assert T.Apply(T.Exact, sub.tickets, T.Enqueue(0)) == sub.tickets;
  }

  lemma TookIsStep(q: Q.State, a: QI.Aux, block: Block)
    requires QI.Good(q, a) && q.producer.PTakeBlock? && (block in q.pool || block !in q.blocks)
    ensures Q.Enabled(q, Q.Produce(Q.Take(block))) && Q.Apply(q, Q.Produce(Q.Take(block))) == Q.Took(q, block)
  {
  }

  /** What the step is to the sub-queue is a step of the sub-queue. */
  ghost predicate SubAgrees(s: State, step: Step)
    requires Enabled(s, step)
  {
    var part, s' := SubPart(s, step), Apply(s, step);
    if part == [] then s'.sub == s.sub
    else |part| == 1 && S.Enabled(s.sub, part[0]) && S.Proper(part[0]) && S.Apply(s.sub, part[0]) == s'.sub
  }

  ghost predicate ListAgrees(s: State, step: Step)
    requires Enabled(s, step)
  {
    var part, s' := ListPart(s, step), Apply(s, step);
    if part == [] then s'.list == s.list
    else |part| == 1 && F.Enabled(s.list, part[0]) && F.Apply(s.list, part[0]) == s'.list
  }

  lemma HandOutIsStep(s: State, a: Aux, u: F.Tid, ours: bool)
    requires Inv(s, a) && Enabled(s, HandOut(u, ours))
    ensures SubAgrees(s, HandOut(u, ours))
  {
    hide QI.Good, T.Inv, F.Inv, F.Apply, Q.Took;
    var n := s.list.threads[u].n;
    HandedOutIsFree(s, a, u, n);
    if ours {
      TookIsStep(s.sub.queue, a.sub.queue, n);
      GetsAlone(s.sub, Q.Produce(Q.Take(n)));
    } else {
      GetsAlone(s.sub, Q.Borrow(n));
    }
  }

  lemma AllocationIsStep(s: State, a: Aux, step: Step)
    requires Inv(s, a) && Enabled(s, step) && (step.AllocateOurs? || step.AllocateTheirs?)
    ensures SubAgrees(s, step)
  {
    hide QI.Good, T.Inv, F.Inv, F.Apply, Q.Took;
    if step.AllocateOurs? {
      TookIsStep(s.sub.queue, a.sub.queue, step.block);
      GetsAlone(s.sub, Q.Produce(Q.Take(step.block)));
    } else {
      GetsAlone(s.sub, Q.Obtain(step.block, step.cell));
    }
  }

  lemma PartsAreSteps(s: State, a: Aux, step: Step)
    requires Inv(s, a) && Enabled(s, step) && Proper(step)
    ensures SubAgrees(s, step) && ListAgrees(s, step)
  {
    hide Inv, F.Enabled, F.Apply, S.Enabled, S.Apply, Q.Took;
    if step.HandOut? {
      HandOutIsStep(s, a, step.u, step.ours);
    } else if step.AllocateOurs? || step.AllocateTheirs? {
      AllocationIsStep(s, a, step);
    } else if step.Free? {
      FreedIsOwned(s, a, step.u, step.giving);
    }
  }

  // ---------- the link ----------

  /** What a step of the queue does to its blocks and its pool. */
  ghost predicate Links(q: Q.State, step: Q.Step, q': Q.State) {
    && (Freed(q, step).None? && !Gets(q, step) ==> q'.pool == q.pool)
    && (Freed(q, step).Some? ==> q'.pool == q.pool + {Freed(q, step).value})
    && (Freed(q, step).Some? || !Gets(q, step) ==> forall b :: b in q'.blocks <==> b in q.blocks)
  }

  lemma ConsumeLinks(q: Q.State, t: Q.Tid)
    requires Q.Enabled(q, Q.Consume(t))
    ensures Links(q, Q.Consume(t), Q.Apply(q, Q.Consume(t)))
  {
    hide BI.Shape, BI.EntryAt, BI.LookupSlot, Q.NextSegment;
  }

  lemma ProduceLinks(q: Q.State, choice: Q.Choice)
    requires Q.Enabled(q, Q.Produce(choice))
    ensures Links(q, Q.Produce(choice), Q.Apply(q, Q.Produce(choice)))
  {
    hide BI.Shape, BI.EntryAt, BI.NewTail, BI.Grow, BI.Rewind, BI.StoreTail, BI.StoreKey, Q.UndoEntry, Q.TailKey, Q.WriteBlock, Q.Needed;
  }

  lemma QueueLink(q: Q.State, a: QI.Aux, step: Q.Step)
    requires QI.Good(q, a) && Q.Enabled(q, step)
    ensures Links(q, step, Q.Apply(q, step))
  {
    hide QI.ConsumerOk, QI.ProducerOk, QI.TailBlockOk, Q.ConsumeStep, Q.ProduceStep, Q.ConsumerDefined, Q.ProducerDefined;
    if step.Consume? {
      ConsumeLinks(q, step.t);
    } else if step.Produce? {
      ProduceLinks(q, step.choice);
    } else if step.Scribble? {
      IS.OwnersArePlaces(q, a);
    }
  }

  /** What a step of the free list does to its nodes and to what callers own. */
  lemma ListLink(list: F.State, step: F.Step)
    requires F.Enabled(list, step)
    ensures var list' := F.Apply(list, step);
      && (forall b :: b in list'.nodes <==> b in list.nodes || (step.Allocate? && b == step.n))
      && list'.client == (if step.Allocate? then list.client + {step.n}
                          else if step.StartAdd? then list.client - {step.n}
                          else if step.Advance? && list.threads[step.t].GetReleaseTwo? then list.client + {list.threads[step.t].n}
                          else list.client)
  {
  }

  /** The queue in a step of the sub-queue that is none of the queue's, and in one that is. */
  lemma SubLink(sub: S.State, step: S.Step)
    requires S.Enabled(sub, step)
    ensures var q, q' := sub.queue, S.Apply(sub, step).queue;
      if step.Queue? then Q.Enabled(q, step.step) && q' == Q.Apply(q, step.step) else q'.blocks == q.blocks && q'.pool == q.pool
  {
  }

  lemma KeepLinked(s: State, a: Aux, step: Step)
    requires Inv(s, a) && Enabled(s, step)
    ensures Linked(Apply(s, step))
  {
    hide SR.Inv, F.Inv, Q.Apply, Q.Enabled, F.Apply, F.Enabled, S.Apply, S.Enabled, Freed, Gets, Q.Took, Q.Obtained, Q.Borrowed;
    if step.Plain? {
      SubLink(s.sub, step.step);
      if step.step.Queue? {
        PlainLink(s, a, step.step.step);
      }
    } else if step.Free? {
      FreeLink(s, a, step.u, step.giving);
    } else if step.StartGet? {
      ListLink(s.list, F.StartGet(step.u));
    } else if step.Inside? {
      ListLink(s.list, F.Advance(step.u));
    } else if step.HandOut? {
      HandOutLink(s, a, step.u, step.ours);
    } else {
      AllocationLink(s, a, step);
    }
  }

  lemma PlainLink(s: State, a: Aux, step: Q.Step)
    requires Inv(s, a) && Q.Enabled(s.sub.queue, step) && Freed(s.sub.queue, step).None? && !Gets(s.sub.queue, step)
    ensures Q.Apply(s.sub.queue, step).pool == s.sub.queue.pool
    ensures forall b :: b in Q.Apply(s.sub.queue, step).blocks <==> b in s.sub.queue.blocks
  {
    hide F.Inv, QI.Good, T.Inv, Freed, Gets, Q.Enabled, Q.Apply;
    QueueLink(s.sub.queue, a.sub.queue, step);
  }

  lemma FreeLink(s: State, a: Aux, u: F.Tid, step: Q.Step)
    requires Inv(s, a) && Enabled(s, Free(u, step))
    ensures Linked(Apply(s, Free(u, step)))
  {
    hide F.Inv, QI.Good, T.Inv, Freed, Gets, Q.Enabled, Q.Apply;
    SubLink(s.sub, S.Queue(step));
    FreedIsOut(s.sub.queue, a.sub.queue, step);
    QueueLink(s.sub.queue, a.sub.queue, step);
  }

  lemma HandOutLink(s: State, a: Aux, u: F.Tid, ours: bool)
    requires Inv(s, a) && Enabled(s, HandOut(u, ours))
    ensures Linked(Apply(s, HandOut(u, ours)))
  {
    hide F.Inv, QI.Good, T.Inv, F.Apply;
    HandedOutIsFree(s, a, u, s.list.threads[u].n);
    PoolIsBlocks(s.sub.queue, a.sub.queue);
    ListLink(s.list, F.Advance(u));
  }

  lemma AllocationLink(s: State, a: Aux, step: Step)
    requires Inv(s, a) && Enabled(s, step) && (step.AllocateOurs? || step.AllocateTheirs?)
    ensures Linked(Apply(s, step))
  {
    hide F.Inv, QI.Good, T.Inv, F.Apply;
    PoolIsBlocks(s.sub.queue, a.sub.queue);
    ListLink(s.list, F.Allocate(step.block));
  }

  lemma PoolIsBlocks(q: Q.State, a: QI.Aux)
    requires QI.Good(q, a)
    ensures q.pool <= q.blocks.Keys
  {
  }

  // ---------- every run ----------

  lemma StepKeeps(s: State, a: Aux, step: Step) returns (a': Aux)
    requires Inv(s, a) && Enabled(s, step) && Proper(step)
    ensures Inv(Apply(s, step), a') && SubAgrees(s, step) && ListAgrees(s, step)
  {
    hide SR.Inv, F.Inv, Linked, Apply, F.Apply, F.Enabled, S.Apply, S.Enabled, SubPart, ListPart;
    PartsAreSteps(s, a, step);
    KeepLinked(s, a, step);
    a' := a;
    if SubPart(s, step) != [] {
      var sub := SR.StepKeeps(s.sub, a.sub, SubPart(s, step)[0]);
      a' := a'.(sub := sub);
    }
    if ListPart(s, step) != [] {
      var list := F.StepKeepsInv(s.list, a.list, ListPart(s, step)[0]);
      a' := a'.(list := list);
    }
  }

  lemma InitInv(s: State) returns (a: Aux)
    requires Init(s)
    ensures Inv(s, a)
  {
    hide SR.Inv, T.Init;
    var sub := SR.InitInv(s.sub);
    a := Aux(sub, F.Aux(map[], []));
  }

  lemma {:induction false} RunKeeps(s: State, a: Aux, steps: seq<Step>) returns (a': Aux)
    requires Inv(s, a) && Feasible(s, steps) && AllProper(steps)
    ensures Inv(Run(s, steps), a')
    decreases |steps|
  {
    hide Inv, Enabled, Apply, SubAgrees, ListAgrees;
    a' := a;
    if steps != [] {
      a' := StepKeeps(s, a, steps[0]);
      a' := RunKeeps(Apply(s, steps[0]), a', steps[1..]);
    }
  }

  lemma Reachable(s0: State, steps: seq<Step>) returns (a: Aux)
    requires Init(s0) && Feasible(s0, steps) && AllProper(steps)
    ensures Inv(Run(s0, steps), a)
  {
    hide Inv, Init, Enabled, Apply;
    a := InitInv(s0);
    a := RunKeeps(s0, a, steps);
  }

  // ---------- what the parts make of a run ----------

  /** A run of the free list, taken apart at its first step. */
  lemma {:induction false} ListRunFromFront(list: F.State, step: F.Step, rest: seq<F.Step>)
    requires F.Enabled(list, step) && FR.Feasible(F.Apply(list, step), rest)
    ensures FR.Feasible(list, [step] + rest) && FR.Run(list, [step] + rest) == FR.Run(F.Apply(list, step), rest)
    decreases |rest|
  {
    hide F.Enabled, F.Apply;
    var all := [step] + rest;
    if rest == [] {
      assert all[..0] == [] && all[|all| - 1] == step;
      assert FR.Run(list, []) == list;
    } else {
      var before := rest[..|rest| - 1];
      ListRunFromFront(list, step, before);
      assert all[..|all| - 1] == [step] + before && all[|all| - 1] == rest[|rest| - 1];
    }
  }

  /** Every run is a run of the sub-queue in which no block is taken but out of the pool or newly allocated, and a run
      of the free list in which callers add only what they own. */
  lemma {:induction false} RunIsBoth(s: State, a: Aux, steps: seq<Step>)
    requires Inv(s, a) && Feasible(s, steps) && AllProper(steps)
    ensures var sub, list := SubSteps(s, steps), ListSteps(s, steps);
      && S.Feasible(s.sub, sub) && S.AllProper(sub) && S.Run(s.sub, sub) == Run(s, steps).sub
      && FR.Feasible(s.list, list) && FR.Run(s.list, list) == Run(s, steps).list
    decreases |steps|
  {
    hide Inv, Enabled, Apply, SubPart, ListPart, S.Enabled, S.Apply, F.Enabled, F.Apply;
    if steps != [] {
      var s' := Apply(s, steps[0]);
      var a' := StepKeeps(s, a, steps[0]);
      RunIsBoth(s', a', steps[1..]);
      SubRunGoesOn(s, steps);
      ListRunGoesOn(s, steps);
    }
  }

  lemma SubRunGoesOn(s: State, steps: seq<Step>)
    requires steps != [] && Feasible(s, steps) && SubAgrees(s, steps[0])
    requires var s', rest := Apply(s, steps[0]), steps[1..];
      S.Feasible(s'.sub, SubSteps(s', rest)) && S.AllProper(SubSteps(s', rest)) && S.Run(s'.sub, SubSteps(s', rest)) == Run(s', rest).sub
    ensures S.Feasible(s.sub, SubSteps(s, steps)) && S.AllProper(SubSteps(s, steps)) && S.Run(s.sub, SubSteps(s, steps)) == Run(s, steps).sub
  {
    hide Enabled, Apply, SubPart, S.Enabled, S.Apply;
    var part, later, all := SubPart(s, steps[0]), SubSteps(Apply(s, steps[0]), steps[1..]), SubSteps(s, steps);
    assert all == part + later;
    if part == [] {
      assert all == later;
    } else {
      assert all[0] == part[0] && all[1..] == later;
    }
  }

  lemma ListRunGoesOn(s: State, steps: seq<Step>)
    requires steps != [] && Feasible(s, steps) && ListAgrees(s, steps[0])
    requires var s', rest := Apply(s, steps[0]), steps[1..];
      FR.Feasible(s'.list, ListSteps(s', rest)) && FR.Run(s'.list, ListSteps(s', rest)) == Run(s', rest).list
    ensures FR.Feasible(s.list, ListSteps(s, steps)) && FR.Run(s.list, ListSteps(s, steps)) == Run(s, steps).list
  {
    hide Enabled, Apply, ListPart, F.Enabled, F.Apply, FR.Feasible, FR.Run;
    var part, later, all := ListPart(s, steps[0]), ListSteps(Apply(s, steps[0]), steps[1..]), ListSteps(s, steps);
    assert all == part + later;
    if part == [] {
      assert all == later;
    } else {
      ListRunFromFront(s.list, part[0], later);
      assert part == [part[0]];
    }
  }

  // ---------- main results ----------

  /** Nobody gets a block that is in use: what `try_get` is about to hand out, and what is allocated, the queue may take
      as if it looked into its pool; it is in no index and in no producer's or consumer's hands.  And nobody gives back
      a block that is not its own. */
  lemma BlocksChangeHandsSafely(s0: State, steps: seq<Step>, step: Step)
    requires Init(s0) && Feasible(s0, steps) && AllProper(steps) && Enabled(Run(s0, steps), step) && Proper(step)
    ensures var s := Run(s0, steps);
      && (step.HandOut? ==> s.list.threads[step.u].n in s.sub.queue.pool)
      && (step.AllocateOurs? || step.AllocateTheirs? ==> step.block !in s.sub.queue.blocks)
      && (step.Free? ==> Freed(s.sub.queue, step.giving).value in s.list.client)
      && SubAgrees(s, step) && ListAgrees(s, step)
  {
    hide Init, Feasible, Run, Apply, Inv, SubAgrees, ListAgrees;
    var a := Reachable(s0, steps);
    var s := Run(s0, steps);
    PartsAreSteps(s, a, step);
    HandsHold(s, a, step);
  }

  lemma HandsHold(s: State, a: Aux, step: Step)
    requires Inv(s, a) && Enabled(s, step)
    ensures step.HandOut? ==> s.list.threads[step.u].n in s.sub.queue.pool
    ensures step.AllocateOurs? || step.AllocateTheirs? ==> step.block !in s.sub.queue.blocks
    ensures step.Free? ==> Freed(s.sub.queue, step.giving).value in s.list.client
  {
    hide F.Inv, SR.Inv, F.Apply, S.Apply, Q.Enabled;
    if step.HandOut? {
      HandedOutIsFree(s, a, step.u, s.list.threads[step.u].n);
    } else if step.Free? {
      FreedIsOwned(s, a, step.u, step.giving);
    }
  }

  /** Every consumer and every thread of the free list can go on; a consumer that gives a block back does so as soon as
      its call of `add` can start. */
  lemma NeverStuck(s0: State, steps: seq<Step>, t: Q.Tid, u: F.Tid)
    requires Init(s0) && Feasible(s0, steps) && AllProper(steps)
    requires var s := Run(s0, steps); t in s.sub.queue.consumers && u in s.list.threads
    ensures var s := Run(s0, steps);
      && (s.sub.queue.consumers[t].Busy? && !s.sub.queue.consumers[t].at.FreeBlock? ==> Enabled(s, Plain(S.Queue(Q.Consume(t)))))
      && (s.sub.queue.consumers[t].Busy? && s.sub.queue.consumers[t].at.FreeBlock? && s.list.threads[u].Idle? ==>
            Enabled(s, Free(u, Q.Consume(t))))
      && (!s.list.threads[u].Idle? ==> Enabled(s, Inside(u)) || Enabled(s, HandOut(u, false)))
  {
    hide Init, Feasible, Run, Enabled, Apply, QI.Good, T.Inv, F.Inv;
    var a := Reachable(s0, steps);
    ListGoesOn(Run(s0, steps), a, u);
    if Run(s0, steps).sub.queue.consumers[t].Busy? {
      ConsumerGoesOn(Run(s0, steps), a, t, u);
    }
  }

  lemma ListGoesOn(s: State, a: Aux, u: F.Tid)
    requires F.Inv(s.list, a.list) && u in s.list.threads
    ensures !s.list.threads[u].Idle? ==> Enabled(s, Inside(u)) || Enabled(s, HandOut(u, false))
  {
    hide F.NodeOk, F.StackOk, F.AdvanceGet, F.AdvanceInsert, F.AdvanceAdd, S.Enabled, Q.Enabled;
    assert F.ThreadOk(s.list, a.list, u);
  }

  lemma ConsumerGoesOn(s: State, a: Aux, t: Q.Tid, u: F.Tid)
    requires QI.Good(s.sub.queue, a.sub.queue) && t in s.sub.queue.consumers && s.sub.queue.consumers[t].Busy? && u in s.list.threads
    ensures !s.sub.queue.consumers[t].at.FreeBlock? ==> Enabled(s, Plain(S.Queue(Q.Consume(t))))
    ensures s.sub.queue.consumers[t].at.FreeBlock? && s.list.threads[u].Idle? ==> Enabled(s, Free(u, Q.Consume(t)))
  {
    hide QI.Good;
    var queue := R.ConsumerKeeps(s.sub.queue, a.sub.queue, t);
  }

  /** When no thread is inside the free list, the list spelled out from its head is exactly the pool. */
  lemma ListIsPool(s0: State, steps: seq<Step>) returns (chain: seq<Block>)
    requires Init(s0) && Feasible(s0, steps) && AllProper(steps) && FR.AllIdle(Run(s0, steps).list)
    ensures var s := Run(s0, steps);
      && FR.Spells(s.list, s.list.head, chain) && FR.Distinct(chain)
      && forall b :: b in chain <==> b in s.sub.queue.pool
  {
    var s := Run(s0, steps);
    var a := Reachable(s0, steps);
    hide Init, Feasible, Run, Apply, SR.Inv;
    chain := FR.ChainFromStack(s.list, a.list);
    PoolOf(s, a);
    IdleChain(s, a, chain);
  }

  lemma PoolOf(s: State, a: Aux)
    requires Inv(s, a)
    ensures forall b :: b in s.sub.queue.pool <==> b in s.list.nodes && b !in s.list.client
  {
    hide F.Inv, QI.Good, T.Inv;
    PoolIsBlocks(s.sub.queue, a.sub.queue);
  }

  lemma IdleChain(s: State, a: Aux, chain: seq<Block>)
    requires F.Inv(s.list, a.list) && FR.ChainOf(a.list, chain) && FR.AllIdle(s.list)
    ensures forall b :: b in chain <==> b in s.list.nodes && b !in s.list.client
  {
    forall b | b in s.list.nodes ensures b in s.list.client <==> b !in chain {
      FR.IdleNode(s.list, a.list, chain, b);
    }
    assert forall b :: b in chain ==> b in a.list.place;
  }

  /** Behind all three protocols together, everything that was enqueued is delivered once: when no dequeue is under way,
      every index below the head has been delivered exactly once, with the element that was enqueued there. */
  lemma EveryElementOnce(s0: State, steps: seq<Step>, y: nat)
    requires Init(s0) && Feasible(s0, steps) && AllProper(steps)
    requires forall t :: t in Run(s0, steps).sub.tickets.threads ==> Run(s0, steps).sub.tickets.threads[t].Idle?
    ensures var s, part := Run(s0, steps).sub, SubSteps(s0, steps);
      && S.Feasible(s0.sub, part) && s.queue.head <= s.queue.tail == |S.Log(s0.sub, part)|
      && S.Received(s0.sub, part, y) == if y < s.queue.head then [S.Log(s0.sub, part)[y]] else []
  {
    hide Inv, Feasible, Run, Enabled, Apply, SubSteps, ListSteps, S.Run, S.Feasible, S.Log, S.Received;
    var a := InitInv(s0);
    RunIsBoth(s0, a, steps);
    SR.EveryElementOnce(s0.sub, SubSteps(s0, steps), y);
  }
}
