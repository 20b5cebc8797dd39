/** What a bulk dequeue with a maximum of zero does: it is granted no index, but looks a block up, adds zero to its
    count and, if it finds the block full, frees it a second time.  So an implicit sub-queue is safe if and only if
    no dequeue is called with a maximum of zero. */
module SubQueueZero {
  import opened Ring
  import BI = BlockIndex
  import T = Tickets
  import Q = ImplicitQueue
  import R = ImplicitRuns
  import IB = ImplicitBlocks
  import opened SubQueue
  import opened SubQueueRuns

  // ---------- what is promised ----------

  /** The block is in one place, under one entry, and freed by one consumer. */
  ghost predicate BlockSafe(q: Q.State, block: Q.Block) {
    && IB.Places(q, block) == 1
    && (forall e, f :: IB.PointsTo(q, e, block) && IB.PointsTo(q, f, block) ==> e == f)
    && (forall t, u :: IB.FreedBy(q, t, block) && IB.FreedBy(q, u, block) ==> t == u)
  }

  /** Lookups find what they are asserted to find, and blocks are where they should be. */
  ghost predicate Safe(q: Q.State) {
    && (forall t :: t in q.consumers && q.consumers[t].Busy? ==> Q.ConsumerDefined(q, t))
    && (forall block :: block in q.blocks ==> BlockSafe(q, block))
  }

  /** All maxima that dequeues are called with are from `maxima`. */
  ghost predicate Allowed(maxima: iset<nat>, step: Step) { step.Start? ==> step.max in maxima }

  ghost predicate AllAllowed(maxima: iset<nat>, steps: seq<Step>) {
    forall i :: 0 <= i < |steps| ==> Allowed(maxima, steps[i])
  }

  ghost predicate SafeFor(maxima: iset<nat>) {
    forall s0, steps :: Init(s0) && Feasible(s0, steps) && AllAllowed(maxima, steps) ==> Safe(Run(s0, steps).queue)
  }

  /** Single dequeues are bulk dequeues with a maximum of one.  With them and any other maxima, every interleaving
      is safe if and only if zero is not among the maxima. */
  lemma SafeIff(maxima: iset<nat>)
    requires 1 in maxima
    ensures SafeFor(maxima) <==> 0 !in maxima
  {
    if 0 in maxima {
      var s0, steps := FreedTwice(maxima);
    } else {
      forall s0, steps | Init(s0) && Feasible(s0, steps) && AllAllowed(maxima, steps)
        ensures Safe(Run(s0, steps).queue)
      {
        assert forall i :: 0 <= i < |steps| ==> Allowed(maxima, steps[i]);
        SafeWhenProper(s0, steps);
      }
    }
  }

  lemma SafeWhenProper(s0: State, steps: seq<Step>)
    requires Init(s0) && Feasible(s0, steps) && AllProper(steps)
    ensures Safe(Run(s0, steps).queue)
  {
    hide IB.Places, IB.PointsTo, IB.FreedBy, Inv;
    var a := InitInv(s0);
    var part := QueueSteps(s0, steps);
    StartsInQueue(s0, a);
    RunIsQueueRun(s0, a, steps, 0);
    R.NothingFails(s0.queue, part);
    var q := Run(s0, steps).queue;
    forall block | block in q.blocks ensures BlockSafe(q, block) {
      IB.OnePlace(s0.queue, part, block);
    }
  }

  lemma StartsInQueue(s0: State, a: Aux)
    requires Init(s0)
    ensures Q.Init(s0.queue)
  {
  }

  // ---------- reaching states ----------

  ghost predicate Leads(maxima: iset<nat>, s0: State, steps: seq<Step>, s: State) {
    Feasible(s0, steps) && AllAllowed(maxima, steps) && Run(s0, steps) == s
  }

  ghost predicate Reaches(maxima: iset<nat>, s0: State, s: State) { exists steps :: Leads(maxima, s0, steps, s) }

  lemma {:induction false} OneMore(s0: State, steps: seq<Step>, step: Step)
    requires Feasible(s0, steps) && Enabled(Run(s0, steps), step)
    ensures Feasible(s0, steps + [step]) && Run(s0, steps + [step]) == Apply(Run(s0, steps), step)
    decreases |steps|
  {
    hide Enabled, Apply;
    var all := steps + [step];
    if steps == [] {
      assert all[1..] == [];
    } else {
      assert all[1..] == steps[1..] + [step];
      OneMore(Apply(s0, steps[0]), steps[1..], step);
    }
  }

  lemma Extend(maxima: iset<nat>, s0: State, s: State, step: Step)
    requires Reaches(maxima, s0, s) && Enabled(s, step) && Allowed(maxima, step)
    ensures Reaches(maxima, s0, Apply(s, step))
  {
    hide Enabled, Apply;
    var steps :| Leads(maxima, s0, steps, s);
    OneMore(s0, steps, step);
    assert Leads(maxima, s0, steps + [step], Apply(s, step));
  }

  /** A step of the queue that neither publishes nor ends a dequeue leaves the tickets alone. */
  lemma QueueGoes(maxima: iset<nat>, s0: State, s: State, step: Q.Step, q: Q.State)
    requires Reaches(maxima, s0, s) && !step.Grant? && Q.Enabled(s.queue, step) && Q.Apply(s.queue, step) == q
    requires R.Published(s.queue, step) == [] && !Ends(s, step)
    ensures Reaches(maxima, s0, State(s.tickets, q))
  {
    hide Q.Enabled, Q.Apply;
    Extend(maxima, s0, s, Queue(step));
  }

  // ---------- the run: one full block ----------

  function Items(): seq<Q.Elem> { seq(Q.BLOCK_SIZE, _ => 0) }

  const IDLE_THREADS: map<Tid, T.Pc> := map[1 := T.Idle, 2 := T.Idle]

  const IDLE_CONSUMERS: map<Tid, Q.Consumer> := map[1 := Q.Idle, 2 := Q.Idle]

  function Empty(ix: BI.Index, blocks: map<Q.Block, Q.Cell>, producer: Q.Producer): State {
    State(T.State(0, 0, 0, 0, IDLE_THREADS),
          Q.State(ix, 0, 0, Q.None, blocks, {}, {}, IDLE_CONSUMERS, producer))
  }

  function Keyed(): BI.Index { BI.StoreKey(BI.InitIndex(), 0, 0) }
  function Placed(): BI.Index { BI.StoreTail(Keyed(), 0) }
  function Filled(): BI.Index { BI.StoreValue(Placed(), 0, BI.Ptr(0)) }

  lemma FirstSlots()
    ensures BI.Shape(BI.InitIndex()) && BI.NewTail(BI.InitIndex()) == 0 && BI.EntryAt(BI.InitIndex(), 0, 0) == 0
    ensures |BI.InitIndex().entries| == 32 && BI.Last(BI.InitIndex()) == 0 && BI.Free(BI.InitIndex().entries[0])
    ensures BI.Shape(Keyed()) && BI.NewTail(Keyed()) == 0
    ensures BI.Shape(Placed()) && |Placed().entries| == 32 && BI.Shape(Filled())
  {
  }

  lemma FilledSlots()
    ensures BI.Shape(Filled()) && |Filled().headers| == 1 && Filled().headers[0].capacity == 32 && Filled().headers[0].tail == 0
    ensures BI.EntryAt(Filled(), 0, 0) == 0 && |Filled().entries| == 32 && Filled().entries[0] == BI.Entry(BI.Base(0), BI.Ptr(0))
    ensures BI.LookupSlot(Filled(), 0, 0, 0, 0) == 0 && BI.Shape(BI.StoreValue(Filled(), 0, BI.Null))
  {
    FirstSlots();
  }

  /** The block: all elements zero, and how many have been counted. */
  function OneBlock(done: nat): map<Q.Block, Q.Cell> { map[0 := Q.Cell(Items(), done)] }

  /** A bulk enqueue finds room and stores the key. */
  lemma FindsRoom(maxima: iset<nat>, s0: State)
    requires s0 == Empty(BI.InitIndex(), map[], Q.PIdle) && Reaches(maxima, s0, s0)
    ensures Reaches(maxima, s0, Empty(Keyed(), map[], Q.PStoreTail(Items(), [], 0)))
  {
    FirstSlots();
    hide Reaches, BI.InitIndex, BI.EntryAt, BI.NewTail, BI.Shape, BI.Free;
    var ix := BI.InitIndex();
    var s1, s2 := Empty(ix, map[], Q.PInsert(Items(), [])), Empty(ix, map[], Q.PStoreKey(Items(), [], 0));
    var s3 := Empty(Keyed(), map[], Q.PStoreTail(Items(), [], 0));
    QueueGoes(maxima, s0, s0, Q.Enqueue(Items()), s1.queue);
    QueueGoes(maxima, s0, s1, Q.Produce(Q.Go), s2.queue);
    QueueGoes(maxima, s0, s2, Q.Produce(Q.Go), s3.queue);
  }

  /** It stores the tail and takes a new block. */
  lemma TakesBlock(maxima: iset<nat>, s0: State)
    requires Reaches(maxima, s0, Empty(Keyed(), map[], Q.PStoreTail(Items(), [], 0)))
    ensures Reaches(maxima, s0, Empty(Placed(), OneBlock(0), Q.PReset(Items(), [], 0, 0)))
  {
    FirstSlots();
    hide Reaches, Keyed, BI.NewTail, BI.Shape;
    var s1, s2 := Empty(Keyed(), map[], Q.PStoreTail(Items(), [], 0)), Empty(Placed(), map[], Q.PTakeBlock(Items(), [], 0));
    var s3 := Empty(Placed(), OneBlock(0), Q.PReset(Items(), [], 0, 0));
    QueueGoes(maxima, s0, s1, Q.Produce(Q.Go), s2.queue);
    assert map[][0 := Q.Cell(Items(), 0)] == OneBlock(0);
    QueueGoes(maxima, s0, s2, Q.Produce(Q.Take(0)), s3.queue);
  }

  lemma StoresBlock(maxima: iset<nat>, s0: State)
    requires Reaches(maxima, s0, Empty(Placed(), OneBlock(0), Q.PReset(Items(), [], 0, 0)))
    ensures Reaches(maxima, s0, Writing(0))
  {
    FirstSlots();
    hide Reaches, Placed, BI.Shape, BI.EntryAt, BI.NewTail;
    var s1, s2 := Empty(Placed(), OneBlock(0), Q.PReset(Items(), [], 0, 0)), Empty(Placed(), OneBlock(0), Q.PStoreBlock(Items(), [], 0, 0));
    var s3, s4 := Empty(Filled(), OneBlock(0), Q.PInsert(Items(), [0])), Empty(Filled(), OneBlock(0), Q.PWrite(Items(), [0], 0));
    assert OneBlock(0)[0 := Q.Cell(Items(), 0)] == OneBlock(0);
    QueueGoes(maxima, s0, s1, Q.Produce(Q.Go), s2.queue);
    assert [] + [0] == [0];
    QueueGoes(maxima, s0, s2, Q.Produce(Q.Go), s3.queue);
    QueueGoes(maxima, s0, s3, Q.Produce(Q.Go), s4.queue);
  }

  function Writing(j: nat): State { Empty(Filled(), OneBlock(0), Q.PWrite(Items(), [0], j)) }

  lemma WritesZero(j: nat)
    requires j < Q.BLOCK_SIZE
    ensures Q.Enabled(Writing(j).queue, Q.Produce(Q.Go)) && Q.Apply(Writing(j).queue, Q.Produce(Q.Go)) == Writing(j + 1).queue
  {
    FirstSlots();
    hide Filled, BI.Shape, BI.EntryAt, BI.NewTail, Q.UndoEntry, Q.TailKey;
    assert Q.WriteBlock(Writing(j).queue, [0], j) == Q.Some(0);
    assert Items()[j := 0] == Items();
    assert OneBlock(0)[0 := Q.Cell(Items(), 0)] == OneBlock(0);
  }

  lemma {:induction false} WritesItems(maxima: iset<nat>, s0: State, j: nat)
    requires j <= Q.BLOCK_SIZE && Reaches(maxima, s0, Writing(0))
    ensures Reaches(maxima, s0, Writing(j))
    decreases j
  {
    hide Reaches, Q.Enabled, Q.Apply, Filled;
    if j > 0 {
      WritesItems(maxima, s0, j - 1);
      WritesZero(j - 1);
      QueueGoes(maxima, s0, Writing(j - 1), Q.Produce(Q.Go), Writing(j).queue);
    }
  }

  /** After the enqueue: one block with 32 elements, `head` of them granted, `done` of them counted. */
  function Full(head: nat, done: nat, count: int, ix: BI.Index, threads: map<Tid, T.Pc>, consumers: map<Tid, Q.Consumer>): State {
    State(T.State(Q.BLOCK_SIZE, head, count, 0, threads),
          Q.State(ix, Q.BLOCK_SIZE, head, Q.Some(0), OneBlock(done), {}, {}, consumers, Q.PIdle))
  }

  lemma Publishes(maxima: iset<nat>, s0: State)
    requires Reaches(maxima, s0, Writing(Q.BLOCK_SIZE))
    ensures Reaches(maxima, s0, Full(0, 0, 0, Filled(), IDLE_THREADS, IDLE_CONSUMERS))
  {
    FilledSlots();
    hide Filled;
    var s := Writing(Q.BLOCK_SIZE);
    Extend(maxima, s0, s, Queue(Q.Produce(Q.Go)));
    assert Apply(s, Queue(Q.Produce(Q.Go))) == Full(0, 0, 0, Filled(), IDLE_THREADS, IDLE_CONSUMERS);
  }

  // ---------- the run: dequeues ----------

  lemma Twice<V>(m: map<Tid, V>, t: Tid, v: V, w: V)
    ensures m[t := v][t := w] == m[t := w]
  {
  }

  lemma TicketGoes(maxima: iset<nat>, s0: State, head: nat, done: nat, count: int, count': int, ix: BI.Index,
                   threads: map<Tid, T.Pc>, consumers: map<Tid, Q.Consumer>, t: Tid, pc: T.Pc, pc': T.Pc)
    requires t in threads && !pc.Idle? && !pc.Reading? && !pc.Claim?
    requires Reaches(maxima, s0, Full(head, done, count, ix, threads[t := pc], consumers))
    requires T.AdvanceThread(T.Exact, T.State(Q.BLOCK_SIZE, head, count, 0, threads[t := pc]), t)
          == T.State(Q.BLOCK_SIZE, head, count', 0, threads[t := pc][t := pc'])
    ensures Reaches(maxima, s0, Full(head, done, count', ix, threads[t := pc'], consumers))
  {
    Twice(threads, t, pc, pc');
    Extend(maxima, s0, Full(head, done, count, ix, threads[t := pc], consumers), Ticket(t));
  }

  /** An idle thread goes through the ticket protocol alone. */
  lemma GetsGrant(maxima: iset<nat>, s0: State, head: nat, done: nat, ix: BI.Index, threads: map<Tid, T.Pc>,
                  consumers: map<Tid, Q.Consumer>, t: Tid, max: nat)
    requires max in maxima && max <= 1 && head < Q.BLOCK_SIZE
    requires t in threads && threads[t] == T.Idle && t in consumers && consumers[t] == Q.Idle
    requires Reaches(maxima, s0, Full(head, done, head, ix, threads, consumers))
    ensures Reaches(maxima, s0, Full(head + max, done, head + max, ix, threads[t := T.Reading(head, max)],
                                     consumers[t := Q.Busy(Q.Job(head, head + max, head, []), Q.LoadIndex)]))
  {
    hide Reaches;
    var tail := Q.BLOCK_SIZE;
    Extend(maxima, s0, Full(head, done, head, ix, threads, consumers), Start(t, max));
    assert Reaches(maxima, s0, Full(head, done, head, ix, threads[t := T.LoadOver(max, tail)], consumers));
    TicketGoes(maxima, s0, head, done, head, head, ix, threads, consumers, t, T.LoadOver(max, tail), T.LoadCount(max, tail, 0));
    TicketGoes(maxima, s0, head, done, head, head, ix, threads, consumers, t, T.LoadCount(max, tail, 0), T.TakeTickets(max, 0));
    TicketGoes(maxima, s0, head, done, head, head + max, ix, threads, consumers, t, T.TakeTickets(max, 0), T.Recheck(max, 0, head));
    TicketGoes(maxima, s0, head, done, head + max, head + max, ix, threads, consumers, t, T.Recheck(max, 0, head), T.Claim(max));
    ClaimGoes(maxima, s0, head, done, ix, threads, consumers, t, max);
  }

  lemma ClaimGoes(maxima: iset<nat>, s0: State, head: nat, done: nat, ix: BI.Index, threads: map<Tid, T.Pc>,
                  consumers: map<Tid, Q.Consumer>, t: Tid, n: nat)
    requires t in threads && t in consumers && consumers[t] == Q.Idle
    requires Reaches(maxima, s0, Full(head, done, head + n, ix, threads[t := T.Claim(n)], consumers))
    ensures Reaches(maxima, s0, Full(head + n, done, head + n, ix, threads[t := T.Reading(head, n)],
                                     consumers[t := Q.Busy(Q.Job(head, head + n, head, []), Q.LoadIndex)]))
  {
    Twice(threads, t, T.Claim(n), T.Reading(head, n));
    Extend(maxima, s0, Full(head, done, head + n, ix, threads[t := T.Claim(n)], consumers), Ticket(t));
  }

  lemma ConsumerGoes(maxima: iset<nat>, s0: State, head: nat, done: nat, done': nat, ix: BI.Index, ix': BI.Index,
                     threads: map<Tid, T.Pc>, consumers: map<Tid, Q.Consumer>, t: Tid, c: Q.Consumer, c': Q.Consumer)
    requires t in consumers && c.Busy? && !c.at.Done?
    requires Reaches(maxima, s0, Full(head, done, head, ix, threads, consumers[t := c]))
    requires Q.ConsumerDefined(Full(head, done, head, ix, threads, consumers[t := c]).queue, t)
    requires Q.ConsumeStep(Full(head, done, head, ix, threads, consumers[t := c]).queue, t)
          == Full(head, done', head, ix', threads, consumers[t := c][t := c']).queue
    ensures Reaches(maxima, s0, Full(head, done', head, ix', threads, consumers[t := c']))
  {
    Twice(consumers, t, c, c');
    QueueGoes(maxima, s0, Full(head, done, head, ix, threads, consumers[t := c]), Q.Consume(t),
              Full(head, done', head, ix', threads, consumers[t := c']).queue);
  }

  /** The consumer finds the block; with nothing to read it goes on to count. */
  lemma LooksUp(maxima: iset<nat>, s0: State, head: nat, done: nat, threads: map<Tid, T.Pc>,
                consumers: map<Tid, Q.Consumer>, t: Tid, job: Q.Job)
    requires t in consumers && job.first < Q.BLOCK_SIZE && job.first == job.seg && job.out == []
    requires job.first <= job.end <= Q.BLOCK_SIZE
    requires Reaches(maxima, s0, Full(head, done, head, Filled(), threads, consumers[t := Q.Busy(job, Q.LoadIndex)]))
    ensures Reaches(maxima, s0, Full(head, done, head, Filled(), threads,
              consumers[t := Q.Busy(job, if job.first == job.end then Q.CountDone(0, 0, 0, 0) else Q.Read(0, 0, 0, 0))]))
  {
    FilledSlots();
    hide Filled, Reaches;
    var ix := Filled();
    var c1, c2, c3 := Q.Busy(job, Q.LoadTail(0)), Q.Busy(job, Q.LoadKey(0, 0)), Q.Busy(job, Q.LoadBlock(0, 0));
    var c4 := Q.Busy(job, if job.first == job.end then Q.CountDone(0, 0, 0, 0) else Q.Read(0, 0, 0, 0));
    ConsumerGoes(maxima, s0, head, done, done, ix, ix, threads, consumers, t, Q.Busy(job, Q.LoadIndex), c1);
    ConsumerGoes(maxima, s0, head, done, done, ix, ix, threads, consumers, t, c1, c2);
    ConsumerGoes(maxima, s0, head, done, done, ix, ix, threads, consumers, t, c2, c3);
    ConsumerGoes(maxima, s0, head, done, done, ix, ix, threads, consumers, t, c3, c4);
  }

  /** The consumer of one element reads and counts it. */
  lemma ReadsOne(maxima: iset<nat>, s0: State, x: nat, threads: map<Tid, T.Pc>, consumers: map<Tid, Q.Consumer>, t: Tid)
    requires t in consumers && x < Q.BLOCK_SIZE
    requires Reaches(maxima, s0, Full(x + 1, x, x + 1, Filled(), threads,
                                      consumers[t := Q.Busy(Q.Job(x, x + 1, x, []), Q.Read(0, 0, 0, 0))]))
    ensures Reaches(maxima, s0, Full(x + 1, x + 1, x + 1, Filled(), threads,
              consumers[t := Q.Busy(Q.Job(x, x + 1, x + 1, [0]), if x + 1 == Q.BLOCK_SIZE then Q.ClearEntry(0, 0, 0, 0) else Q.Done)]))
  {
    FilledSlots();
    hide Filled, Reaches;
    var ix := Filled();
    var c0, c1 := Q.Busy(Q.Job(x, x + 1, x, []), Q.Read(0, 0, 0, 0)), Q.Busy(Q.Job(x, x + 1, x, [0]), Q.CountDone(0, 0, 0, 0));
    var c2 := Q.Busy(Q.Job(x, x + 1, x + 1, [0]), if x + 1 == Q.BLOCK_SIZE then Q.ClearEntry(0, 0, 0, 0) else Q.Done);
    assert [] + [0] == [0];
    ConsumerGoes(maxima, s0, x + 1, x, x, ix, ix, threads, consumers, t, c0, c1);
    assert OneBlock(x)[0 := Q.Cell(Items(), x + 1)] == OneBlock(x + 1);
    ConsumerGoes(maxima, s0, x + 1, x, x + 1, ix, ix, threads, consumers, t, c1, c2);
  }

  lemma IsDone(maxima: iset<nat>, s0: State, head: nat, done: nat, ix: BI.Index, threads: map<Tid, T.Pc>,
               consumers: map<Tid, Q.Consumer>, t: Tid, job: Q.Job, n: nat)
    requires t in threads && threads[t] == T.Idle && t in consumers && consumers[t] == Q.Idle && BI.Shape(ix)
    requires Reaches(maxima, s0, Full(head, done, head, ix, threads[t := T.Reading(job.first, n)], consumers[t := Q.Busy(job, Q.Done)]))
    ensures Reaches(maxima, s0, Full(head, done, head, ix, threads, consumers))
  {
    var s := Full(head, done, head, ix, threads[t := T.Reading(job.first, n)], consumers[t := Q.Busy(job, Q.Done)]);
    Twice(threads, t, T.Reading(job.first, n), T.Idle);
    Twice(consumers, t, Q.Busy(job, Q.Done), Q.Idle);
    assert threads[t := T.Idle] == threads && consumers[t := Q.Idle] == consumers;
    Extend(maxima, s0, s, Queue(Q.Consume(t)));
  }

  /** Thread 1 has dequeued the first `x` elements, one by one. */
  lemma {:induction false} DequeuesSome(maxima: iset<nat>, s0: State, x: nat)
    requires 1 in maxima && x < Q.BLOCK_SIZE
    requires Reaches(maxima, s0, Full(0, 0, 0, Filled(), IDLE_THREADS, IDLE_CONSUMERS))
    ensures Reaches(maxima, s0, Full(x, x, x, Filled(), IDLE_THREADS, IDLE_CONSUMERS))
    decreases x
  {
    hide Reaches, Filled;
    if x > 0 {
      var y := x - 1;
      DequeuesSome(maxima, s0, y);
      FilledSlots();
      GetsGrant(maxima, s0, y, y, Filled(), IDLE_THREADS, IDLE_CONSUMERS, 1, 1);
      var threads := IDLE_THREADS[1 := T.Reading(y, 1)];
      LooksUp(maxima, s0, x, y, threads, IDLE_CONSUMERS, 1, Q.Job(y, x, y, []));
      ReadsOne(maxima, s0, y, threads, IDLE_CONSUMERS, 1);
      IsDone(maxima, s0, x, x, Filled(), IDLE_THREADS, IDLE_CONSUMERS, 1, Q.Job(y, x, x, [0]), 1);
    }
  }

  // ---------- the run: the block is freed twice ----------

  const LAST: nat := 31

  /** Thread 2, with a maximum of zero, finds the block while its last element is still there; then thread 1 takes
      that element and counts the block full. */
  lemma ZeroFindsBlock(maxima: iset<nat>, s0: State)
    requires 0 in maxima && 1 in maxima
    requires Reaches(maxima, s0, Full(LAST, LAST, LAST, Filled(), IDLE_THREADS, IDLE_CONSUMERS))
    ensures Reaches(maxima, s0, Full(32, 32, 32, Filled(), map[1 := T.Reading(LAST, 1), 2 := T.Reading(LAST, 0)],
              map[1 := Q.Busy(Q.Job(LAST, 32, 32, [0]), Q.ClearEntry(0, 0, 0, 0)),
                  2 := Q.Busy(Q.Job(LAST, LAST, LAST, []), Q.CountDone(0, 0, 0, 0))]))
  {
    hide Reaches, Filled;
    var zero, one := Q.Job(LAST, LAST, LAST, []), Q.Job(LAST, 32, LAST, []);
    GetsGrant(maxima, s0, LAST, LAST, Filled(), IDLE_THREADS, IDLE_CONSUMERS, 2, 0);
    var threads := IDLE_THREADS[2 := T.Reading(LAST, 0)];
    LooksUp(maxima, s0, LAST, LAST, threads, IDLE_CONSUMERS, 2, zero);
    var consumers := IDLE_CONSUMERS[2 := Q.Busy(zero, Q.CountDone(0, 0, 0, 0))];
    GetsGrant(maxima, s0, LAST, LAST, Filled(), threads, consumers, 1, 1);
    threads := threads[1 := T.Reading(LAST, 1)];
    LooksUp(maxima, s0, 32, LAST, threads, consumers, 1, one);
    ReadsOne(maxima, s0, LAST, threads, consumers, 1);
    assert threads == map[1 := T.Reading(LAST, 1), 2 := T.Reading(LAST, 0)];
    assert consumers[1 := Q.Busy(Q.Job(LAST, 32, 32, [0]), Q.ClearEntry(0, 0, 0, 0))]
        == map[1 := Q.Busy(Q.Job(LAST, 32, 32, [0]), Q.ClearEntry(0, 0, 0, 0)),
               2 := Q.Busy(zero, Q.CountDone(0, 0, 0, 0))];
  }

  /** Both are about to give the block back. */
  function BothFree(): map<Tid, Q.Consumer> {
    map[1 := Q.Busy(Q.Job(LAST, 32, 32, [0]), Q.FreeBlock(0, 0, 0)), 2 := Q.Busy(Q.Job(LAST, LAST, LAST, []), Q.FreeBlock(0, 0, 0))]
  }

  lemma BothClear(maxima: iset<nat>, s0: State, threads: map<Tid, T.Pc>)
    requires Reaches(maxima, s0, Full(32, 32, 32, Filled(), threads,
              map[1 := Q.Busy(Q.Job(LAST, 32, 32, [0]), Q.ClearEntry(0, 0, 0, 0)),
                  2 := Q.Busy(Q.Job(LAST, LAST, LAST, []), Q.CountDone(0, 0, 0, 0))]))
    ensures Reaches(maxima, s0, Full(32, 32, 32, BI.StoreValue(Filled(), 0, BI.Null), threads, BothFree()))
  {
    FilledSlots();
    hide Filled, Reaches;
    var ix, cleared := Filled(), BI.StoreValue(Filled(), 0, BI.Null);
    var one, zero := Q.Job(LAST, 32, 32, [0]), Q.Job(LAST, LAST, LAST, []);
    var clear1, free1 := Q.Busy(one, Q.ClearEntry(0, 0, 0, 0)), Q.Busy(one, Q.FreeBlock(0, 0, 0));
    var count2, clear2, free2 := Q.Busy(zero, Q.CountDone(0, 0, 0, 0)), Q.Busy(zero, Q.ClearEntry(0, 0, 0, 0)), Q.Busy(zero, Q.FreeBlock(0, 0, 0));
    var c := map[1 := clear1, 2 := count2];
    assert c[2 := count2] == c && OneBlock(32)[0 := Q.Cell(Items(), 32)] == OneBlock(32);
    ConsumerGoes(maxima, s0, 32, 32, 32, ix, ix, threads, c, 2, count2, clear2);
    var d := c[2 := clear2];
    assert d[1 := clear1] == d;
    ConsumerGoes(maxima, s0, 32, 32, 32, ix, cleared, threads, d, 1, clear1, free1);
    var e := d[1 := free1];
    assert e[2 := clear2] == e && BI.StoreValue(cleared, 0, BI.Null) == cleared && BI.Shape(cleared);
    ConsumerGoes(maxima, s0, 32, 32, 32, cleared, cleared, threads, e, 2, clear2, free2);
    assert e[2 := free2] == BothFree();
  }

  /** A run in which two consumers free the same block. */
  lemma FreedTwice(maxima: iset<nat>) returns (s0: State, steps: seq<Step>)
    requires 0 in maxima && 1 in maxima
    ensures Init(s0) && Feasible(s0, steps) && AllAllowed(maxima, steps)
    ensures IB.FreedBy(Run(s0, steps).queue, 1, 0) && IB.FreedBy(Run(s0, steps).queue, 2, 0)
    ensures 0 in Run(s0, steps).queue.blocks && !Safe(Run(s0, steps).queue)
  {
    s0 := Empty(BI.InitIndex(), map[], Q.PIdle);
    assert Leads(maxima, s0, [], s0);
    var threads := map[1 := T.Reading(LAST, 1), 2 := T.Reading(LAST, 0)];
    var s := Full(32, 32, 32, BI.StoreValue(Filled(), 0, BI.Null), threads, BothFree());
    assert Reaches(maxima, s0, s) by {
      hide Filled, Reaches;
      FindsRoom(maxima, s0);
      TakesBlock(maxima, s0);
      StoresBlock(maxima, s0);
      WritesItems(maxima, s0, Q.BLOCK_SIZE);
      Publishes(maxima, s0);
      DequeuesSome(maxima, s0, LAST);
      ZeroFindsBlock(maxima, s0);
      BothClear(maxima, s0, threads);
    }
    steps :| Leads(maxima, s0, steps, s);
    assert IB.FreedBy(s.queue, 1, 0) && IB.FreedBy(s.queue, 2, 0);
    assert 0 in s.queue.blocks && !BlockSafe(s.queue, 0);
  }
}
