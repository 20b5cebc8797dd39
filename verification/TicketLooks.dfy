/** How many elements a dequeue gets, by what it saw: with any number of dequeues under way, exactly as many of its
    tickets win as were below the tail at both of its looks. */
module TicketLooks {
  import opened Tickets
  import opened TicketRuns

  /** What the accesses of a call have met: the tail at its start, the overcommit, the optimistic count, the count
      again when it took its tickets, which is the first of them, and the tail when it looked again. */
  datatype Looks = Looks(max: int, tail: int, over: int, count: int, first: int, again: int, claimed: bool)

  ghost function Seen(s0: State, steps: seq<Step>, t: Tid): Looks
    requires Feasible(Exact, s0, steps)
    decreases |steps|
  {
    if steps == [] then Looks(0, 0, 0, 0, 0, 0, true)
    else Sees(Run(Exact, s0, steps[..|steps| - 1]), steps[|steps| - 1], t, Seen(s0, steps[..|steps| - 1], t))
  }

  function Sees(s: State, step: Step, t: Tid, l: Looks): Looks
    requires Enabled(Exact, s, step)
  {
    if step.Start? && step.t == t then Looks(step.max, s.tail, 0, 0, 0, 0, false)
    else if step == Advance(t) then
      var pc := s.threads[t];
      if pc.LoadOver? then l.(over := s.over)
      else if pc.LoadCount? then l.(count := s.count)
      else if pc.TakeTickets? then l.(first := s.count)
      else if pc.Recheck? then l.(again := s.tail)
      else if pc.Claim? then l.(claimed := true)
      else l
    else l
  }

  /** The `j`-th element was there at the first look, and at the second. */
  predicate There(l: Looks, j: int) { j < l.max && l.count + j - l.over < l.tail }

  predicate StillThere(l: Looks, j: int) { There(l, j) && l.first + j - l.over < l.again }

  /** As many tickets as elements were there at the first look, and as many wins as at both. */
  ghost predicate Wants(l: Looks, desired: int) {
    desired >= 0 && forall j {:trigger There(l, j)} :: 0 <= j ==> (j < desired <==> There(l, j))
  }

  ghost predicate Wins(l: Looks, actual: int) {
    actual >= 0 && forall j {:trigger StillThere(l, j)} :: 0 <= j ==> (j < actual <==> StillThere(l, j))
  }

  ghost predicate LooksOk(pc: Pc, l: Looks) {
    match pc
    case Idle => l.claimed || Wins(l, 0) || Wants(l, 0)
    case LoadOver(max, tail) => !l.claimed && max == l.max && max >= 0 && tail == l.tail
    case LoadCount(max, tail, over) => !l.claimed && max == l.max && max >= 0 && tail == l.tail && over == l.over
    case TakeTickets(desired, over) => !l.claimed && over == l.over && Wants(l, desired)
    case Recheck(desired, over, my) => !l.claimed && over == l.over && my == l.first && Wants(l, desired)
    case GiveBack(extra, actual) => !l.claimed && Wins(l, actual) && Wants(l, actual + extra)
    case Claim(actual) => !l.claimed && Wins(l, actual)
    case GiveUp(desired) => !l.claimed && Wins(l, 0) && Wants(l, desired)
    case Reading(first, actual) => l.claimed && Wins(l, actual)
  }

  lemma CountLooks(s: State, t: Tid, l: Looks)
    requires t in s.threads && s.threads[t].LoadCount? && LooksOk(s.threads[t], l)
    ensures var s' := AdvanceThread(Exact, s, t); t in s'.threads && LooksOk(s'.threads[t], l.(count := s.count))
  {
    var pc, l' := s.threads[t], l.(count := s.count);
    if s.count - pc.over < pc.tail {
      assert Wants(l', Min(pc.tail - (s.count - pc.over), pc.max));
    } else {
      assert Wants(l', 0);
    }
  }

  lemma TakeLooks(s: State, t: Tid, l: Looks)
    requires t in s.threads && s.threads[t].TakeTickets? && LooksOk(s.threads[t], l)
    ensures var s' := AdvanceThread(Exact, s, t); t in s'.threads && LooksOk(s'.threads[t], l.(first := s.count))
  {
    var l' := l.(first := s.count);
    forall j | 0 <= j ensures There(l', j) <==> There(l, j) {
    }
    assert Wants(l', s.threads[t].desired);
  }

  lemma SecondLooks(s: State, t: Tid, l: Looks)
    requires t in s.threads && s.threads[t].Recheck? && LooksOk(s.threads[t], l)
    ensures var s' := AdvanceThread(Exact, s, t); t in s'.threads && LooksOk(s'.threads[t], l.(again := s.tail))
  {
    var pc, l' := s.threads[t], l.(again := s.tail);
    forall j | 0 <= j ensures There(l', j) <==> There(l, j) && (There(l, j) <==> j < pc.desired) {
    }
    assert Wants(l', pc.desired);
    if pc.my - pc.over < s.tail {
      assert Wins(l', Min(pc.desired, s.tail - (pc.my - pc.over)));
    } else {
      assert Wins(l', 0);
    }
  }

  lemma ClaimLooks(s: State, t: Tid, l: Looks)
    requires t in s.threads && s.threads[t].Claim? && LooksOk(s.threads[t], l)
    ensures var s' := AdvanceThread(Exact, s, t); t in s'.threads && LooksOk(s'.threads[t], l.(claimed := true))
  {
    forall j | 0 <= j ensures StillThere(l.(claimed := true), j) <==> StillThere(l, j) {
    }
  }

  lemma StepLooks(s: State, step: Step, t: Tid, l: Looks)
    requires Enabled(Exact, s, step) && t in s.threads && LooksOk(s.threads[t], l)
    ensures var s' := Apply(Exact, s, step); t in s'.threads && LooksOk(s'.threads[t], Sees(s, step, t, l))
  {
    if step == Advance(t) {
      var pc := s.threads[t];
      if pc.LoadCount? {
        CountLooks(s, t, l);
      } else if pc.TakeTickets? {
        TakeLooks(s, t, l);
      } else if pc.Recheck? {
        SecondLooks(s, t, l);
      } else if pc.Claim? {
        ClaimLooks(s, t, l);
      }
    }
  }

  lemma {:induction false} RunLooks(s0: State, steps: seq<Step>, t: Tid)
    requires Init(s0) && Feasible(Exact, s0, steps) && t in s0.threads
    ensures t in Run(Exact, s0, steps).threads && LooksOk(Run(Exact, s0, steps).threads[t], Seen(s0, steps, t))
    decreases |steps|
  {
    if steps != [] {
      hide LooksOk, Sees, Apply, Enabled;
      var before := steps[..|steps| - 1];
      RunLooks(s0, before, t);
      StepLooks(Run(Exact, s0, before), steps[|steps| - 1], t, Seen(s0, before, t));
    }
  }

  /** In every interleaving, a dequeue that has got elements has got exactly as many as its looks allowed: its `j`-th
      ticket has won if and only if an element was there for it at both. */
  lemma GetsWhatItSaw(s0: State, steps: seq<Step>, t: Tid, j: nat)
    requires Init(s0) && Feasible(Exact, s0, steps) && t in s0.threads
    requires t in Run(Exact, s0, steps).threads && Run(Exact, s0, steps).threads[t].Reading?
    ensures var l := Seen(s0, steps, t);
      j < Run(Exact, s0, steps).threads[t].actual <==>
        j < l.max && l.count + j - l.over < l.tail && l.first + j - l.over < l.again
  {
    RunLooks(s0, steps, t);
    assert StillThere(Seen(s0, steps, t), j) || !StillThere(Seen(s0, steps, t), j);
  }

  /** And one that has ended without any has asked for none, or has not seen any at one of its looks. */
  lemma NothingOnlyIfUnseen(s0: State, steps: seq<Step>, t: Tid)
    requires Init(s0) && Feasible(Exact, s0, steps) && t in s0.threads
    requires t in Run(Exact, s0, steps).threads && Run(Exact, s0, steps).threads[t].Idle? && !Seen(s0, steps, t).claimed
    ensures var l := Seen(s0, steps, t); l.max <= 0 || l.count - l.over >= l.tail || l.first - l.over >= l.again
  {
    RunLooks(s0, steps, t);
    var l := Seen(s0, steps, t);
    assert There(l, 0) || !There(l, 0);
    assert StillThere(l, 0) || !StillThere(l, 0);
  }
}
