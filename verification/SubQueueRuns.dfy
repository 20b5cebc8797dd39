/** Runs of a whole implicit sub-queue in which every dequeue asks for at least one element. */
module SubQueueRuns {
  import opened ThreadSums
  import T = Tickets
  import Q = ImplicitQueue
  import QI = ImplicitQueueInv
  import R = ImplicitRuns
  import BI = BlockIndex
  import opened SubQueue

  // ---------- the invariant ----------

  /** The two parts agree, and a thread reads elements exactly while it is a consumer. */
  ghost predicate Together(s: State) {
    && s.tickets.head == s.queue.head && s.tickets.tail == s.queue.tail
    && (forall t :: t in s.tickets.threads <==> t in s.queue.consumers)
    && (forall t :: t in s.tickets.threads ==> (s.tickets.threads[t].Reading? <==> s.queue.consumers[t].Busy?))
  }

  /** Every dequeue under way wants at least one element, and a claim is of at least one. */
  predicate Wants(pc: T.Pc) {
    && (pc.LoadOver? || pc.LoadCount? ==> pc.max > 0)
    && (pc.TakeTickets? || pc.Recheck? ==> pc.desired > 0)
    && (pc.GiveBack? || pc.Claim? ==> pc.actual > 0)
  }

  ghost predicate AllWant(s: State) { forall t :: t in s.tickets.threads ==> Wants(s.tickets.threads[t]) }

  /** What the proof knows beyond the state. */
  datatype Aux = Aux(tickets: seq<T.Ticket>, queue: QI.Aux)

  ghost predicate Inv(s: State, a: Aux) {
    T.Inv(s.tickets, a.tickets) && QI.Good(s.queue, a.queue) && Together(s) && AllWant(s)
  }

  // ---------- the steps ----------

  lemma WantsOn(s: T.State, t: Tid)
    requires t in s.threads && !s.threads[t].Idle? && Wants(s.threads[t])
    ensures var s' := T.AdvanceThread(T.Exact, s, t); t in s'.threads && Wants(s'.threads[t]) && s'.threads == s.threads[t := s'.threads[t]]
  {
  }

  /** A claim lies below the tail. */
  lemma ClaimIsBelowTail(s: T.State, tickets: seq<T.Ticket>, t: Tid)
    requires T.Inv(s, tickets) && t in s.threads && s.threads[t].Claim?
    ensures 0 <= s.threads[t].actual && 0 <= s.head && s.head + s.threads[t].actual <= s.tail
  {
    T.HeadBelowTail(s, tickets);
    assert T.ThreadOk(s, tickets, t);
    SumAtLeast(s.threads, T.Unclaimed(), t);
  }

  lemma KeepStart(s: State, a: Aux, step: Step) returns (a': Aux)
    requires Inv(s, a) && Enabled(s, step) && step.Start? && Proper(step)
    ensures Inv(Apply(s, step), a') && a'.queue == a.queue
  {
    hide T.Inv, QI.Good;
    var tickets := T.StepKeepsInv(s.tickets, a.tickets, T.Start(step.t, step.max));
    a' := a.(tickets := tickets);
  }

  lemma KeepTicket(s: State, a: Aux, step: Step) returns (a': Aux)
    requires Inv(s, a) && Enabled(s, step) && step.Ticket? && !Claims(s, step.t)
    ensures Inv(Apply(s, step), a') && a'.queue == a.queue
  {
    hide T.Inv, QI.Good;
    var tickets := T.StepKeepsInv(s.tickets, a.tickets, T.Advance(step.t));
    a' := a.(tickets := tickets);
    WantsOn(s.tickets, step.t);
    NoClaim(s.tickets, step.t);
  }

  lemma NoClaim(s: T.State, t: Tid)
    requires t in s.threads && !s.threads[t].Idle? && !s.threads[t].Claim?
    ensures var s' := T.AdvanceThread(T.Exact, s, t);
      s'.head == s.head && s'.tail == s.tail && t in s'.threads && !s'.threads[t].Reading?
  {
  }

  /** The step that adds to the head is a grant that the queue allows. */
  lemma ClaimIsGrant(s: State, a: Aux, t: Tid)
    requires Inv(s, a) && Enabled(s, Ticket(t)) && Claims(s, t)
    ensures var n := s.tickets.threads[t].actual;
      n > 0 && Q.Enabled(s.queue, Q.Grant(t, n)) && Apply(s, Ticket(t)).queue == Q.Apply(s.queue, Q.Grant(t, n))
  {
    hide QI.Good;
    ClaimIsBelowTail(s.tickets, a.tickets, t);
  }

  lemma KeepClaim(s: State, a: Aux, t: Tid) returns (a': Aux)
    requires Inv(s, a) && Enabled(s, Ticket(t)) && Claims(s, t)
    ensures Inv(Apply(s, Ticket(t)), a') && a'.queue.log == a.queue.log
  {
    hide T.Inv, QI.Good;
    ClaimIsGrant(s, a, t);
    var tickets := T.StepKeepsInv(s.tickets, a.tickets, T.Advance(t));
    var queue := R.StepKeeps(s.queue, a.queue, Q.Grant(t, s.tickets.threads[t].actual));
    a' := Aux(tickets, queue);
    WantsOn(s.tickets, t);
  }

  /** What a step of the queue, other than a grant, does to what the two parts share. */
  lemma QueueStep(s: Q.State, step: Q.Step)
    requires Q.Enabled(s, step) && !step.Grant?
    ensures var s' := Q.Apply(s, step);
      && s'.head == s.head && s'.tail == s.tail + |R.Published(s, step)|
      && (forall t :: t in s'.consumers <==> t in s.consumers)
      && (forall t :: t in s.consumers && !(step.Consume? && step.t == t) ==> s'.consumers[t] == s.consumers[t])
      && (step.Consume? ==> (s'.consumers[step.t].Busy? <==> !s.consumers[step.t].at.Done?))
  {
    hide BI.Shape, BI.EntryAt, BI.LookupSlot, BI.NewTail, BI.Grow, BI.Rewind, BI.StoreTail, BI.StoreKey, BI.StoreValue;
    hide Q.UndoEntry, Q.TailKey, Q.WriteBlock, Q.Needed;
    if step.Produce? {
      ProduceStep(s, step.choice);
    } else {
      hide Q.ProduceStep, Q.ProducerDefined;
    }
  }

  lemma ProduceStep(s: Q.State, choice: Q.Choice)
    requires Q.ProducerDefined(s, choice)
    ensures var s' := Q.ProduceStep(s, choice);
      s'.head == s.head && s'.consumers == s.consumers && s'.tail == s.tail + |R.Published(s, Q.Produce(choice))|
  {
    hide BI.Shape, BI.EntryAt, BI.LookupSlot, BI.NewTail, BI.Grow, BI.Rewind, BI.StoreTail, BI.StoreKey, BI.StoreValue;
    hide Q.UndoEntry, Q.TailKey, Q.WriteBlock, Q.Needed;
  }

  lemma KeepQueue(s: State, a: Aux, step: Q.Step) returns (a': Aux)
    requires Inv(s, a) && Enabled(s, Queue(step))
    ensures Inv(Apply(s, Queue(step)), a') && a'.queue.log == a.queue.log + R.Published(s.queue, step)
  {
    hide T.Inv, QI.Good, Q.Apply, R.Published;
    QueueStep(s.queue, step);
    var queue := R.StepKeeps(s.queue, a.queue, step);
    if Ends(s, step) {
      EndsPublishNothing(s, step);
      var tickets := T.StepKeepsInv(s.tickets, a.tickets, T.Advance(step.t));
      WantsOn(s.tickets, step.t);
      NoClaim(s.tickets, step.t);
      a' := Aux(tickets, queue);
    } else {
      var tickets := T.StepKeepsInv(s.tickets, a.tickets, T.Enqueue(|R.Published(s.queue, step)|));
      a' := Aux(tickets, queue);
    }
  }

  lemma EndsPublishNothing(s: State, step: Q.Step)
    requires Ends(s, step)
    ensures R.Published(s.queue, step) == []
  {
  }

  /** The part of a step that the queue takes. */
  function QueuePart(s: State, step: Step): seq<Q.Step>
    requires Enabled(s, step)
  {
    match step
    case Start(t, max) => []
    case Ticket(t) => if Claims(s, t) then [Q.Grant(t, s.tickets.threads[t].actual)] else []
    case Queue(step) => [step]
  }

  lemma StepKeeps(s: State, a: Aux, step: Step) returns (a': Aux)
    requires Inv(s, a) && Enabled(s, step) && Proper(step)
    ensures Inv(Apply(s, step), a')
  {
    hide Inv, T.Enabled, Q.Enabled;
    if step.Start? {
      a' := KeepStart(s, a, step);
    } else if step.Queue? {
      a' := KeepQueue(s, a, step.step);
    } else if Claims(s, step.t) {
      a' := KeepClaim(s, a, step.t);
    } else {
      a' := KeepTicket(s, a, step);
    }
  }

  lemma InitInv(s: State) returns (a: Aux)
    requires Init(s)
    ensures Inv(s, a) && a.queue.log == []
  {
    var queue := R.InitGood(s.queue);
    a := Aux([], queue);
    SumZero(s.tickets.threads, T.Owed());
    SumZero(s.tickets.threads, T.Unclaimed());
  }

  lemma {:induction false} RunKeeps(s: State, a: Aux, steps: seq<Step>) returns (a': Aux)
    requires Inv(s, a) && Feasible(s, steps) && AllProper(steps)
    ensures Inv(Run(s, steps), a')
    decreases |steps|
  {
    a' := a;
    if steps != [] {
      a' := StepKeeps(s, a, steps[0]);
      a' := RunKeeps(Apply(s, steps[0]), a', steps[1..]);
    }
  }

  // ---------- what the queue makes of a run ----------

  /** The run, as far as the queue can tell. */
  function QueueSteps(s: State, steps: seq<Step>): seq<Q.Step>
    requires Feasible(s, steps)
    decreases |steps|
  {
    if steps == [] then [] else QueuePart(s, steps[0]) + QueueSteps(Apply(s, steps[0]), steps[1..])
  }

  lemma PartIsStep(s: State, a: Aux, step: Step)
    requires Inv(s, a) && Enabled(s, step) && Proper(step)
    ensures var part := QueuePart(s, step);
      if part == [] then Apply(s, step).queue == s.queue && !step.Queue?
      else |part| == 1 && Q.Enabled(s.queue, part[0]) && R.Proper(part[0]) && Apply(s, step).queue == Q.Apply(s.queue, part[0])
           && (step.Queue? ==> part[0] == step.step) && (!step.Queue? ==> part[0].Grant?)
  {
    hide Inv, Q.Apply;
    if step.Ticket? && Claims(s, step.t) {
      ClaimIsGrant(s, a, step.t);
    }
  }

  /** Every run is a run of the queue, in which the grants keep to its guard and none is empty. */
  lemma {:induction false} RunIsQueueRun(s: State, a: Aux, steps: seq<Step>, y: nat)
    requires Inv(s, a) && Feasible(s, steps) && AllProper(steps)
    ensures var part := QueueSteps(s, steps);
      && R.Feasible(s.queue, part) && R.AllProper(part) && R.Run(s.queue, part) == Run(s, steps).queue
      && R.Log(s.queue, part) == Log(s, steps) && R.Received(s.queue, part, y) == Received(s, steps, y)
    decreases |steps|
  {
    hide Inv, Enabled, Apply, QueuePart, Q.Enabled, Q.Apply, R.Published, R.Delivered;
    if steps != [] {
      var s', rest := Apply(s, steps[0]), steps[1..];
      PartIsStep(s, a, steps[0]);
      var a' := StepKeeps(s, a, steps[0]);
      RunIsQueueRun(s', a', rest, y);
      RunGoesOn(s, steps, y);
    }
  }

  lemma RunGoesOn(s: State, steps: seq<Step>, y: nat)
    requires steps != [] && Feasible(s, steps)
    requires var part, s' := QueuePart(s, steps[0]), Apply(s, steps[0]);
      if part == [] then s'.queue == s.queue && !steps[0].Queue?
      else |part| == 1 && Q.Enabled(s.queue, part[0]) && R.Proper(part[0]) && s'.queue == Q.Apply(s.queue, part[0])
           && (steps[0].Queue? ==> part[0] == steps[0].step) && (!steps[0].Queue? ==> part[0].Grant?)
    requires var s', rest := Apply(s, steps[0]), steps[1..];
      var part := QueueSteps(s', rest);
      && R.Feasible(s'.queue, part) && R.AllProper(part) && R.Run(s'.queue, part) == Run(s', rest).queue
      && R.Log(s'.queue, part) == Log(s', rest) && R.Received(s'.queue, part, y) == Received(s', rest, y)
    ensures var part := QueueSteps(s, steps);
      && R.Feasible(s.queue, part) && R.AllProper(part) && R.Run(s.queue, part) == Run(s, steps).queue
      && R.Log(s.queue, part) == Log(s, steps) && R.Received(s.queue, part, y) == Received(s, steps, y)
  {
    hide Enabled, Apply, QueuePart, Q.Enabled, Q.Apply;
    var part, s' := QueuePart(s, steps[0]), Apply(s, steps[0]);
    var later, all := QueueSteps(s', steps[1..]), QueueSteps(s, steps);
    assert all == part + later;
    assert [] + Log(s', steps[1..]) == Log(s', steps[1..]) && [] + Received(s', steps[1..], y) == Received(s', steps[1..], y);
    if part == [] {
      assert all == later;
    } else {
      assert all[0] == part[0] && all[1..] == later;
    }
  }

  // ---------- main results ----------

  /** No thread is ever stuck or touches memory that does not exist, and no claim finds its thread busy. */
  lemma NothingFails(s0: State, steps: seq<Step>, t: Tid)
    requires Init(s0) && Feasible(s0, steps) && AllProper(steps) && t in Run(s0, steps).tickets.threads
    ensures var s := Run(s0, steps);
      && t in s.queue.consumers
      && (s.queue.consumers[t].Busy? ==> Enabled(s, Queue(Q.Consume(t))))
      && (!s.tickets.threads[t].Idle? && !s.tickets.threads[t].Reading? ==> Enabled(s, Ticket(t)))
      && (s.tickets.threads[t].Reading? <==> s.queue.consumers[t].Busy?)
  {
    hide QI.Good, Q.ConsumeStep;
    var a0 := InitInv(s0);
    var a := RunKeeps(s0, a0, steps);
    var s := Run(s0, steps);
    if s.queue.consumers[t].Busy? {
      var queue := R.ConsumerKeeps(s.queue, a.queue, t);
    }
    if Claims(s, t) {
      ClaimIsBelowTail(s.tickets, a.tickets, t);
    }
  }

  /** When no dequeue is under way, every index below the head has been delivered exactly once, with the element
      that was enqueued there, and nothing else has been delivered. */
  lemma EveryElementOnce(s0: State, steps: seq<Step>, y: nat)
    requires Init(s0) && Feasible(s0, steps) && AllProper(steps)
    requires forall t :: t in Run(s0, steps).tickets.threads ==> Run(s0, steps).tickets.threads[t].Idle?
    ensures var s := Run(s0, steps);
      && s.tickets.count - s.tickets.over == s.tickets.head == s.queue.head <= s.queue.tail == |Log(s0, steps)|
      && Received(s0, steps, y) == if y < s.queue.head then [Log(s0, steps)[y]] else []
  {
    var a0 := InitInv(s0);
    var a := RunKeeps(s0, a0, steps);
    RunIsQueueRun(s0, a0, steps, y);
    QuietTickets(Run(s0, steps).tickets, a.tickets);
    R.EveryElementOnce(s0.queue, QueueSteps(s0, steps), y);
  }

  lemma QuietTickets(s: T.State, tickets: seq<T.Ticket>)
    requires T.Inv(s, tickets) && forall t :: t in s.threads ==> s.threads[t].Idle?
    ensures s.count - s.over == s.head
  {
    SumZero(s.threads, T.Owed());
    SumZero(s.threads, T.Unclaimed());
    forall i | 0 <= i < |tickets| ensures !tickets[i].Pending? {
      assert T.TicketOk(s, tickets, i);
    }
    T.WonPlusLost(tickets);
  }
}
