/** What the ticket protocol guarantees over whole runs, and why it works on wrapping words. */
module TicketRuns {
  import opened ThreadSums
  import opened Wraparound
  import opened Tickets

  ghost predicate Feasible(m: Arith, s0: State, steps: seq<Step>)
    requires m.Word? ==> m.size > 0
    decreases |steps|, 0
  {
    steps == [] ||
    var before := steps[..|steps| - 1];
    Feasible(m, s0, before) && Enabled(m, Run(m, s0, before), steps[|steps| - 1])
  }

  ghost function Run(m: Arith, s0: State, steps: seq<Step>): State
    requires (m.Word? ==> m.size > 0) && Feasible(m, s0, steps)
    decreases |steps|, 1
  {
    if steps == [] then s0 else
      Apply(m, Run(m, s0, steps[..|steps| - 1]), steps[|steps| - 1])
  }

  lemma {:induction false} RunKeepsInv(s0: State, steps: seq<Step>) returns (tickets: seq<Ticket>)
    requires Init(s0) && Feasible(Exact, s0, steps)
    ensures Inv(Run(Exact, s0, steps), tickets)
    decreases |steps|
  {
    if steps == [] {
      tickets := [];
      SumZero(s0.threads, Owed());
      SumZero(s0.threads, Unclaimed());
    } else {
      tickets := RunKeepsInv(s0, steps[..|steps| - 1]);
      tickets := StepKeepsInv(Run(Exact, s0, steps[..|steps| - 1]), tickets, steps[|steps| - 1]);
    }
  }

  /** How often a run has granted index `x` to a dequeuer. */
  ghost function TimesGranted(s0: State, steps: seq<Step>, x: int): nat
    requires Feasible(Exact, s0, steps)
  {
    if steps == [] then 0 else
      var before, step := steps[..|steps| - 1], steps[|steps| - 1];
      var s := Run(Exact, s0, before);
      TimesGranted(s0, before, x)
      + if step.Advance? && s.threads[step.t].Claim? && s.head <= x < s.head + s.threads[step.t].actual then 1 else 0
  }

  /** In every interleaving of any number of dequeues with one enqueuer, the indices granted are exactly
      those below `headIndex`, each once, and all of them have been enqueued. */
  lemma {:induction false} GrantedExactlyOnce(s0: State, steps: seq<Step>, x: int)
    requires Init(s0) && Feasible(Exact, s0, steps)
    ensures var s := Run(Exact, s0, steps);
      && 0 <= s.head <= s.tail
      && TimesGranted(s0, steps, x) == if 0 <= x < s.head then 1 else 0
    decreases |steps|
  {
    var tickets := RunKeepsInv(s0, steps);
    HeadBelowTail(Run(Exact, s0, steps), tickets);
    if steps != [] {
      var before, step := steps[..|steps| - 1], steps[|steps| - 1];
      GrantedExactlyOnce(s0, before, x);
      if step.Advance? {
        var beforeTickets := RunKeepsInv(s0, before);
        assert ThreadOk(Run(Exact, s0, before), beforeTickets, step.t);
      }
    }
  }

  /** What a thread is about to claim has been enqueued: the indices from the head on, as many as it has won,
      whatever other threads have won and not claimed yet. */
  lemma GrantsLieBelowTail(s0: State, steps: seq<Step>, t: Tid)
    requires Init(s0) && Feasible(Exact, s0, steps)
    requires t in Run(Exact, s0, steps).threads && Run(Exact, s0, steps).threads[t].Claim?
    ensures var s := Run(Exact, s0, steps); 0 <= s.threads[t].actual && s.head + s.threads[t].actual <= s.tail
  {
    var s := Run(Exact, s0, steps);
    var tickets := RunKeepsInv(s0, steps);
    HeadBelowTail(s, tickets);
    assert ThreadOk(s, tickets, t);
    SumAtLeast(s.threads, Unclaimed(), t);
  }

  // ---------- no dequeuer in flight ----------

  predicate AllIdle(s: State) { forall t :: t in s.threads ==> s.threads[t].Idle? }

  /** Once no dequeuer is in flight, the difference of the two counters is the head. */
  lemma QuiescentCount(s0: State, steps: seq<Step>)
    requires Init(s0) && Feasible(Exact, s0, steps) && AllIdle(Run(Exact, s0, steps))
    ensures var s := Run(Exact, s0, steps); s.count - s.over == s.head
  {
    var s := Run(Exact, s0, steps);
    var tickets := RunKeepsInv(s0, steps);
    SumZero(s.threads, Owed());
    SumZero(s.threads, Unclaimed());
    forall i | 0 <= i < |tickets| ensures !tickets[i].Pending? {
      assert TicketOk(s, tickets, i);
    }
    WonPlusLost(tickets);
  }

  /** Thread `t` runs on its own for up to `k` steps. */
  function Alone(m: Arith, s: State, t: Tid, k: nat): (r: State)
    requires (m.Word? ==> m.size > 0) && t in s.threads
    ensures t in r.threads
    decreases k
  {
    if k == 0 || s.threads[t].Idle? || s.threads[t].Reading? then s else Alone(m, AdvanceThread(m, s, t), t, k - 1)
  }

  /** A lone dequeue of up to `max` elements finds an element exactly when there is one, and then takes
      as many as there are, up to `max`, from the head on; otherwise it changes no index. */
  lemma LoneDequeue(s0: State, steps: seq<Step>, t: Tid, max: nat)
    requires Init(s0) && Feasible(Exact, s0, steps) && AllIdle(Run(Exact, s0, steps))
    requires t in Run(Exact, s0, steps).threads
    ensures var s := Run(Exact, s0, steps);
      var r := Alone(Exact, Apply(Exact, s, Start(t, max)), t, 5);
      if s.head < s.tail then
        var n := Min(max, s.tail - s.head);
        r == s.(head := s.head + n, count := s.count + n, threads := s.threads[t := Reading(s.head, n)])
      else
        r == s
  {
    QuiescentCount(s0, steps);
    AloneFromQuiescence(Run(Exact, s0, steps), t, max);
  }

  lemma AloneFromQuiescence(s: State, t: Tid, max: nat)
    requires t in s.threads && s.threads[t].Idle? && s.count - s.over == s.head
    ensures var r := Alone(Exact, Apply(Exact, s, Start(t, max)), t, 5);
      if s.head < s.tail then
        var n := Min(max, s.tail - s.head);
        r == s.(head := s.head + n, count := s.count + n, threads := s.threads[t := Reading(s.head, n)])
      else
        r == s
  {
    hide Reduce, CircularLess;
    var s1 := Apply(Exact, s, Start(t, max));
    var s2 := AdvanceThread(Exact, s1, t);
    var s3 := AdvanceThread(Exact, s2, t);
    assert Alone(Exact, s1, t, 5) == Alone(Exact, s2, t, 4) == Alone(Exact, s3, t, 3);
    if s.head < s.tail {
      AloneFromTickets(s3, t);
      var n := Min(max, s.tail - s.head);
      assert s3.threads[t := Reading(s.head, n)] == s.threads[t := Reading(s.head, n)];
    } else {
      assert s3.threads == s.threads;
    }
  }

  lemma AloneStep(s: State, t: Tid, k: nat, s': State)
    requires k > 0 && t in s.threads && !s.threads[t].Idle? && !s.threads[t].Reading?
    requires s' == AdvanceThread(Exact, s, t)
    ensures t in s'.threads && Alone(Exact, s, t, k) == Alone(Exact, s', t, k - 1)
  {
    hide Reduce, CircularLess;
  }

  lemma AloneEnds(s: State, t: Tid)
    requires t in s.threads
    ensures Alone(Exact, s, t, 0) == s
  {
  }

  /** With the first look confirmed by the second, all tickets win. */
  lemma AloneFromTickets(s: State, t: Tid)
    requires t in s.threads && s.threads[t].TakeTickets?
    requires var pc := s.threads[t]; pc.desired <= s.tail - (s.count - pc.over) && s.count - pc.over < s.tail
    ensures var n := s.threads[t].desired;
      Alone(Exact, s, t, 3) == s.(head := s.head + n, count := s.count + n, threads := s.threads[t := Reading(s.head, n)])
  {
    hide Reduce, CircularLess, Alone;
    var n, over := s.threads[t].desired, s.threads[t].over;
    var s4 := Go(s.(count := s.count + n), t, Recheck(n, over, s.count));
    var s5 := Go(s4, t, Claim(n));
    var s6 := Go(s5.(head := s.head + n), t, Reading(s.head, n));
    AloneStep(s, t, 3, s4);
    AloneStep(s4, t, 2, s5) by { assert Min(n, s4.tail - (s.count - over)) == n; }
    AloneStep(s5, t, 1, s6);
    AloneEnds(s6, t);
    assert s6.threads == s.threads[t := Reading(s.head, n)];
  }

  // ---------- words that wrap around ----------

  /** A thread's local indices, reduced to words; the counts it has computed are kept. */
  function ImagePc(size: int, pc: Pc): Pc
    requires size > 0
  {
    match pc
    case Idle => Idle
    case LoadOver(max, tail) => LoadOver(max, tail % size)
    case LoadCount(max, tail, over) => LoadCount(max, tail % size, over % size)
    case TakeTickets(desired, over) => TakeTickets(desired, over % size)
    case Recheck(desired, over, my) => Recheck(desired, over % size, my % size)
    case GiveBack(extra, actual) => GiveBack(extra, actual)
    case Claim(actual) => Claim(actual)
    case GiveUp(desired) => GiveUp(desired)
    case Reading(first, actual) => Reading(first % size, actual)
  }

  /** The state of the word machine that stands for `s`. */
  function Image(size: int, s: State): State
    requires size > 0
  {
    State(s.tail % size, s.head % size, s.count % size, s.over % size,
          map t | t in s.threads :: ImagePc(size, s.threads[t]))
  }

  /** The two indices that the step compares, if it compares any, are less than half the range apart.
      `max` and the number of elements enqueued are words. */
  predicate NotLapped(size: int, s: State, step: Step) {
    match step
    case Enqueue(n) => n < size
    case Start(t, max) => max < size
    case Advance(t) =>
      t in s.threads ==>
        var pc := s.threads[t];
        && (pc.LoadCount? ==> -(size / 2) < pc.tail - (s.count - pc.over) < size / 2)
        && (pc.Recheck? ==> -(size / 2) < s.tail - (pc.my - pc.over) < size / 2)
  }

  /** On words, the test and the difference come out as on unbounded indices. */
  lemma CompareAgrees(size: int, a: int, b: int, c: int)
    requires size > 0 && -(size / 2) < c - (a - b) < size / 2
    ensures CircularLess(size, (a % size - b % size) % size, c % size) <==> a - b < c
    ensures a - b < c ==> (c % size - (a % size - b % size)) % size == c - (a - b)
  {
    ModReduce(a, b, size);
    CircularLessIsLess(size, a - b, c);
    ModReduceRight(c % size, a % size - b % size, size);
    ModReduce(c, a - b, size);
    if a - b < c {
      DivModUnique(c - (a - b), 0, c - (a - b), size);
    }
  }

  lemma ImageGo(size: int, s: State, t: Tid, pc: Pc)
    requires size > 0 && t in s.threads
    ensures Image(size, Go(s, t, pc)) == Go(Image(size, s), t, ImagePc(size, pc))
  {
    assert Image(size, Go(s, t, pc)).threads == Image(size, s).threads[t := ImagePc(size, pc)];
  }

  /** A step on words is the image of the same step on unbounded indices. */
  lemma StepOnWords(size: int, s: State, step: Step)
    requires size > 0 && Enabled(Exact, s, step) && NotLapped(size, s, step)
    ensures Enabled(Word(size), Image(size, s), step)
    ensures Apply(Word(size), Image(size, s), step) == Image(size, Apply(Exact, s, step))
  {
    var i := Image(size, s);
    match step
    case Enqueue(n) =>
      ModReduce(s.tail, n, size);
    case Start(t, max) =>
      ImageGo(size, s, t, LoadOver(max, s.tail));
    case Advance(t) =>
      var pc := s.threads[t];
      assert i.threads[t] == ImagePc(size, pc);
      AdvanceOnWords(size, s, t);
  }

  /** Given that the comparison agrees, so does the step; `i` stands for the image of `s`. */
  lemma TestWithLoads(m: Arith, s: State, i: State, t: Tid)
    requires (m.Word? ==> m.size > 0) && t in s.threads && s.threads[t].LoadCount? && t in i.threads && i.threads[t].LoadCount?
    requires s.threads[t].max == i.threads[t].max
    requires var pc, ipc := s.threads[t], i.threads[t];
      && (Less(m, N(m, i.count - ipc.over), ipc.tail) <==> s.count - pc.over < pc.tail)
      && (s.count - pc.over < pc.tail ==> N(m, ipc.tail - (i.count - ipc.over)) == pc.tail - (s.count - pc.over))
    ensures var pc, ipc := AdvanceThread(Exact, s, t).threads[t], AdvanceThread(m, i, t).threads[t];
      && AdvanceThread(Exact, s, t) == Go(s, t, pc) && AdvanceThread(m, i, t) == Go(i, t, ipc)
      && (pc == ipc == Idle || (pc.TakeTickets? && pc.over == s.threads[t].over && ipc == TakeTickets(pc.desired, i.threads[t].over)))
  {
  }

  lemma TestWithRecheck(m: Arith, s: State, i: State, t: Tid)
    requires (m.Word? ==> m.size > 0) && t in s.threads && s.threads[t].Recheck? && t in i.threads && i.threads[t].Recheck?
    requires s.threads[t].desired == i.threads[t].desired
    requires var pc, ipc := s.threads[t], i.threads[t];
      && (Less(m, N(m, ipc.my - ipc.over), i.tail) <==> pc.my - pc.over < s.tail)
      && (pc.my - pc.over < s.tail ==> N(m, i.tail - (ipc.my - ipc.over)) == s.tail - (pc.my - pc.over))
    ensures var pc, ipc := AdvanceThread(Exact, s, t).threads[t], AdvanceThread(m, i, t).threads[t];
      && AdvanceThread(Exact, s, t) == Go(s, t, pc) && AdvanceThread(m, i, t) == Go(i, t, ipc)
      && pc == ipc && (pc.GiveBack? || pc.Claim? || pc.GiveUp?)
  {
  }

  lemma TestOnWords(size: int, s: State, t: Tid)
    requires size > 0 && t in s.threads && (s.threads[t].LoadCount? || s.threads[t].Recheck?) && NotLapped(size, s, Advance(t))
    ensures AdvanceThread(Word(size), Image(size, s), t) == Image(size, AdvanceThread(Exact, s, t))
  {
    ImageGo(size, s, t, AdvanceThread(Exact, s, t).threads[t]);
    var pc := s.threads[t];
    if pc.LoadCount? {
      CompareAgrees(size, s.count, pc.over, pc.tail);
      TestWithLoads(Word(size), s, Image(size, s), t);
    } else {
      CompareAgrees(size, pc.my, pc.over, s.tail);
      TestWithRecheck(Word(size), s, Image(size, s), t);
    }
  }

  lemma AdvanceOnWords(size: int, s: State, t: Tid)
    requires size > 0 && t in s.threads && !s.threads[t].Idle? && NotLapped(size, s, Advance(t))
    ensures AdvanceThread(Word(size), Image(size, s), t) == Image(size, AdvanceThread(Exact, s, t))
  {
    var pc' := AdvanceThread(Exact, s, t).threads[t];
    match s.threads[t]
    case LoadOver(_, _) => ImageGo(size, s, t, pc');
    case LoadCount(_, _, _) => TestOnWords(size, s, t);
    case TakeTickets(desired, over) =>
      ModReduce(s.count, desired, size);
      ImageGo(size, s.(count := s.count + desired), t, pc');
    case Recheck(_, _, _) => TestOnWords(size, s, t);
    case GiveBack(extra, actual) =>
      ModReduce(s.over, extra, size);
      ImageGo(size, s.(over := s.over + extra), t, pc');
    case Claim(actual) =>
      ModReduce(s.head, actual, size);
      ImageGo(size, s.(head := s.head + actual), t, pc');
    case GiveUp(desired) =>
      ModReduce(s.over, desired, size);
      ImageGo(size, s.(over := s.over + desired), t, pc');
    case Reading(_, _) => ImageGo(size, s, t, pc');
  }

  /** No step of the run compares indices half the range or more apart. */
  ghost predicate NeverLapped(size: int, s0: State, steps: seq<Step>)
    requires Feasible(Exact, s0, steps)
  {
    steps == [] ||
    var before := steps[..|steps| - 1];
    NeverLapped(size, s0, before) && NotLapped(size, Run(Exact, s0, before), steps[|steps| - 1])
  }

  /** The word machine refines the unbounded one: while no comparison spans half the index range, a run on
      words goes through exactly the images of the states of the run on unbounded indices. */
  lemma {:induction false} WordsRefineExact(size: int, s0: State, steps: seq<Step>)
    requires size > 0 && Feasible(Exact, s0, steps) && NeverLapped(size, s0, steps)
    ensures Feasible(Word(size), Image(size, s0), steps)
    ensures Run(Word(size), Image(size, s0), steps) == Image(size, Run(Exact, s0, steps))
    decreases |steps|
  {
    if steps != [] {
      var before, step := steps[..|steps| - 1], steps[|steps| - 1];
      WordsRefineExact(size, s0, before);
      StepOnWords(size, Run(Exact, s0, before), step);
    }
  }
}
