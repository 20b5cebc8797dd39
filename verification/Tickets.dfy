/** The dequeue protocol of one producer's sub-queue.

    One enqueuer publishes elements by advancing `tailIndex`; any number of threads dequeue.  A dequeuer
    loads the tail, the overcommit and the optimistic count, takes tickets from the optimistic count, looks
    at the tail again, gives back the tickets that turn out to be too many through the overcommit, and only
    then advances `headIndex`.  `dequeue` is `dequeue_bulk` with a maximum of one.  Each access to a
    shared index is one step.

    The same program is run over unbounded indices and over words that wrap around. */
module Tickets {
  import opened ThreadSums
  import opened Wraparound

  type Tid = nat

  /** Unbounded integers, or words modulo `size`. */
  datatype Arith = Exact | Word(size: int)

  function N(m: Arith, x: int): int
    requires m.Word? ==> m.size > 0
  {
    if m.Exact? then x else Reduce(x, m.size)
  }

  /** `circular_less_than`. */
  predicate Less(m: Arith, a: int, b: int)
    requires m.Word? ==> m.size > 0
  {
    if m.Exact? then a < b else CircularLess(m.size, a, b)
  }

  datatype Pc =
    | Idle
    | LoadOver(max: int, tail: int)
    | LoadCount(max: int, tail: int, over: int)
    | TakeTickets(desired: int, over: int)
    | Recheck(desired: int, over: int, my: int)
    | GiveBack(extra: int, actual: int)
    | Claim(actual: int)
    | GiveUp(desired: int)
    | Reading(first: int, actual: int)

  /** `tailIndex`, `headIndex`, `dequeueOptimisticCount`, `dequeueOvercommit`. */
  datatype State = State(tail: int, head: int, count: int, over: int, threads: map<Tid, Pc>)

  datatype Step = Enqueue(n: nat) | Start(t: Tid, max: nat) | Advance(t: Tid)

  function Min(a: int, b: int): int { if a < b then a else b }

  function Go(s: State, t: Tid, pc: Pc): State { s.(threads := s.threads[t := pc]) }

  predicate Enabled(m: Arith, s: State, step: Step) {
    match step
    case Enqueue(n) => m.Word? ==> n < m.size
    case Start(t, max) => t in s.threads && s.threads[t].Idle? && (m.Word? ==> max < m.size)
    case Advance(t) => t in s.threads && !s.threads[t].Idle?
  }

  function AdvanceThread(m: Arith, s: State, t: Tid): State
    requires (m.Word? ==> m.size > 0) && t in s.threads && !s.threads[t].Idle?
  {
    match s.threads[t]
    case LoadOver(max, tail) => Go(s, t, LoadCount(max, tail, s.over))
    case LoadCount(max, tail, over) =>
      if Less(m, N(m, s.count - over), tail) then Go(s, t, TakeTickets(Min(N(m, tail - (s.count - over)), max), over))
      else Go(s, t, Idle)
    case TakeTickets(desired, over) =>
      Go(s.(count := N(m, s.count + desired)), t, Recheck(desired, over, s.count))
    case Recheck(desired, over, my) =>
      if Less(m, N(m, my - over), s.tail) then
        var actual := Min(desired, N(m, s.tail - (my - over)));
        Go(s, t, if actual < desired then GiveBack(desired - actual, actual) else Claim(actual))
      else Go(s, t, GiveUp(desired))
    case GiveBack(extra, actual) => Go(s.(over := N(m, s.over + extra)), t, Claim(actual))
    case Claim(actual) => Go(s.(head := N(m, s.head + actual)), t, Reading(s.head, actual))
    case GiveUp(desired) => Go(s.(over := N(m, s.over + desired)), t, Idle)
    case Reading(_, _) => Go(s, t, Idle)
  }

  function Apply(m: Arith, s: State, step: Step): State
    requires (m.Word? ==> m.size > 0) && Enabled(m, s, step)
  {
    match step
    case Enqueue(n) => s.(tail := N(m, s.tail + n))
    case Start(t, max) => Go(s, t, LoadOver(max, s.tail))
    case Advance(t) => AdvanceThread(m, s, t)
  }

  predicate Init(s: State) {
    && s.tail == s.head == s.count == s.over == 0
    && forall t :: t in s.threads ==> s.threads[t] == Idle
  }

  // ---------- tickets ----------

  /** The fate of one unit of the optimistic count. */
  datatype Ticket = Pending(t: Tid) | Won | Lost

  ghost function Tally(tickets: seq<Ticket>, x: Ticket): nat
  {
    if tickets == [] then 0
    else Tally(tickets[..|tickets| - 1], x) + if tickets[|tickets| - 1] == x then 1 else 0
  }

  lemma {:induction false} TallyAppend(a: seq<Ticket>, b: seq<Ticket>, x: Ticket)
    ensures Tally(a + b, x) == Tally(a, x) + Tally(b, x)
    decreases |b|
  {
    if b == [] {
      assert a + b == a;
    } else {
      assert (a + b)[..|a + b| - 1] == a + b[..|b| - 1];
      TallyAppend(a, b[..|b| - 1], x);
    }
  }

  lemma {:induction false} TallyAll(a: seq<Ticket>, y: Ticket, x: Ticket)
    requires forall i :: 0 <= i < |a| ==> a[i] == y
    ensures Tally(a, x) == if x == y then |a| else 0
    decreases |a|
  {
    if a != [] {
      TallyAll(a[..|a| - 1], y, x);
    }
  }

  lemma {:induction false} TallyMonotone(a: seq<Ticket>, b: seq<Ticket>, x: Ticket)
    requires |a| == |b| && forall i :: 0 <= i < |a| && a[i] == x ==> b[i] == x
    ensures Tally(a, x) <= Tally(b, x)
    decreases |a|
  {
    if a != [] {
      TallyMonotone(a[..|a| - 1], b[..|b| - 1], x);
    }
  }

  /** The winner with the highest ticket bounds the number of all winners. */
  lemma {:induction false} WinnersBound(tickets: seq<Ticket>, tail: int)
    requires tail >= 0
    requires forall i :: 0 <= i < |tickets| && tickets[i] == Won ==> i + 1 - Tally(tickets[..i + 1], Lost) <= tail
    ensures Tally(tickets, Won) <= tail
    decreases |tickets|
  {
    if tickets != [] {
      var n := |tickets| - 1;
      if tickets[n] == Won {
        assert tickets[..n + 1] == tickets;
        WonPlusLost(tickets);
      } else {
        forall i | 0 <= i < n && tickets[..n][i] == Won
          ensures i + 1 - Tally(tickets[..n][..i + 1], Lost) <= tail
        {
          assert tickets[..n][..i + 1] == tickets[..i + 1];
        }
        WinnersBound(tickets[..n], tail);
      }
    }
  }

  lemma {:induction false} WonPlusLost(tickets: seq<Ticket>)
    ensures Tally(tickets, Won) + Tally(tickets, Lost) <= |tickets|
    ensures (forall i :: 0 <= i < |tickets| ==> !tickets[i].Pending?) ==>
      Tally(tickets, Won) + Tally(tickets, Lost) == |tickets|
    decreases |tickets|
  {
    if tickets != [] {
      WonPlusLost(tickets[..|tickets| - 1]);
    }
  }

  // ---------- the invariant, over unbounded indices ----------

  /** Tickets already lost, but not yet added to the overcommit. */
  ghost function Owed(): Pc -> nat {
    (pc: Pc) => if pc.GiveBack? && pc.extra >= 0 then pc.extra else if pc.GiveUp? && pc.desired >= 0 then pc.desired else 0
  }

  /** Tickets already won, but not yet added to the head. */
  ghost function Unclaimed(): Pc -> nat {
    (pc: Pc) => if (pc.GiveBack? || pc.Claim?) && pc.actual >= 0 then pc.actual else 0
  }

  ghost predicate ThreadOk(s: State, tickets: seq<Ticket>, t: Tid)
    requires t in s.threads
  {
    match s.threads[t]
    case Idle => true
    case LoadOver(max, tail) => max >= 0 && tail <= s.tail
    case LoadCount(max, tail, over) => max >= 0 && tail <= s.tail && over <= s.over
    case TakeTickets(desired, over) => desired >= 0 && over <= s.over
    case Recheck(desired, over, my) =>
      && desired >= 0 && 0 <= my && my + desired <= |tickets|
      && (forall i :: my <= i < my + desired ==> tickets[i] == Pending(t))
      && over <= Tally(tickets[..my], Lost)
    case GiveBack(extra, actual) => extra >= 0 && actual >= 0
    case Claim(actual) => actual >= 0
    case GiveUp(desired) => desired >= 0
    case Reading(first, actual) => 0 <= first && actual >= 0 && first + actual <= s.head
  }

  ghost predicate TicketOk(s: State, tickets: seq<Ticket>, i: nat)
    requires i < |tickets|
  {
    match tickets[i]
    case Pending(t) =>
      t in s.threads && s.threads[t].Recheck? && s.threads[t].my <= i < s.threads[t].my + s.threads[t].desired
    case Won => i + 1 - Tally(tickets[..i + 1], Lost) <= s.tail
    case Lost => true
  }

  /** The counting part of the invariant; a decision moves tickets from pending to won and lost. */
  ghost predicate Counts(s: State, tickets: seq<Ticket>) {
    && s.count == |tickets|
    && Tally(tickets, Lost) == s.over + Sum(s.threads, Owed())
    && Tally(tickets, Won) == s.head + Sum(s.threads, Unclaimed())
  }

  ghost predicate Inv(s: State, tickets: seq<Ticket>) {
    && s.tail >= 0 && s.head >= 0
    && Counts(s, tickets)
    && (forall t :: t in s.threads ==> ThreadOk(s, tickets, t))
    && (forall i :: 0 <= i < |tickets| ==> TicketOk(s, tickets, i))
  }

  /** The head never passes the tail: every index that is granted has been enqueued. */
  lemma HeadBelowTail(s: State, tickets: seq<Ticket>)
    requires Inv(s, tickets)
    ensures s.head + Sum(s.threads, Unclaimed()) <= s.tail
  {
    forall i | 0 <= i < |tickets| && tickets[i] == Won ensures i + 1 - Tally(tickets[..i + 1], Lost) <= s.tail {
      assert TicketOk(s, tickets, i);
    }
    WinnersBound(tickets, s.tail);
  }

  lemma SumsChange(s: State, t: Tid, pc: Pc)
    requires t in s.threads
    ensures Sum(s.threads[t := pc], Owed()) + Owed()(s.threads[t]) == Sum(s.threads, Owed()) + Owed()(pc)
    ensures Sum(s.threads[t := pc], Unclaimed()) + Unclaimed()(s.threads[t]) == Sum(s.threads, Unclaimed()) + Unclaimed()(pc)
  {
    SumSet(s.threads, Owed(), t, pc);
    SumSet(s.threads, Unclaimed(), t, pc);
  }

  /** A step of `t` that takes and decides no tickets is invisible to the other threads. */
  lemma KeepOther(s: State, tickets: seq<Ticket>, t: Tid, u: Tid)
    requires t in s.threads && !s.threads[t].Idle? && !s.threads[t].TakeTickets? && !s.threads[t].Recheck?
    requires ThreadOk(s, tickets, t) && u in s.threads && ThreadOk(s, tickets, u) && s.head >= 0
    ensures ThreadOk(AdvanceThread(Exact, s, t), tickets, u)
  {
  }

  lemma KeepSimpleCounts(s: State, tickets: seq<Ticket>, t: Tid)
    requires t in s.threads && !s.threads[t].Idle? && !s.threads[t].TakeTickets? && !s.threads[t].Recheck?
    requires ThreadOk(s, tickets, t) && Counts(s, tickets) && s.head >= 0
    ensures var s' := AdvanceThread(Exact, s, t);
      Counts(s', tickets) && s'.tail == s.tail && s'.head >= 0 && s'.threads == s.threads[t := s'.threads[t]]
  {
    SumsChange(s, t, AdvanceThread(Exact, s, t).threads[t]);
  }

  lemma KeepSimple(s: State, tickets: seq<Ticket>, t: Tid)
    requires Inv(s, tickets) && t in s.threads
    requires !s.threads[t].Idle? && !s.threads[t].TakeTickets? && !s.threads[t].Recheck?
    ensures Inv(AdvanceThread(Exact, s, t), tickets)
  {
    var s' := AdvanceThread(Exact, s, t);
    assert ThreadOk(s, tickets, t);
    KeepSimpleCounts(s, tickets, t);
    forall u | u in s'.threads ensures ThreadOk(s', tickets, u) {
      KeepOther(s, tickets, t, u);
    }
    forall i | 0 <= i < |tickets| ensures TicketOk(s', tickets, i) {
      KeepUndecided(s, tickets, t, i);
    }
  }

  lemma KeepUndecided(s: State, tickets: seq<Ticket>, t: Tid, i: nat)
    requires t in s.threads && !s.threads[t].Idle? && !s.threads[t].Recheck?
    requires i < |tickets| && TicketOk(s, tickets, i)
    ensures TicketOk(AdvanceThread(Exact, s, t), tickets, i)
  {
  }

  lemma KeepEnqueue(s: State, tickets: seq<Ticket>, n: nat)
    requires Inv(s, tickets)
    ensures Inv(Apply(Exact, s, Enqueue(n)), tickets)
  {
    var s' := Apply(Exact, s, Enqueue(n));
    forall u | u in s'.threads ensures ThreadOk(s', tickets, u) {
      assert ThreadOk(s, tickets, u);
    }
    forall i | 0 <= i < |tickets| ensures TicketOk(s', tickets, i) {
      assert TicketOk(s, tickets, i);
    }
  }

  lemma KeepStart(s: State, tickets: seq<Ticket>, t: Tid, max: nat)
    requires Inv(s, tickets) && Enabled(Exact, s, Start(t, max))
    ensures Inv(Apply(Exact, s, Start(t, max)), tickets)
  {
    var s' := Apply(Exact, s, Start(t, max));
    SumsChange(s, t, s'.threads[t]);
    forall u | u in s'.threads ensures ThreadOk(s', tickets, u) {
      assert u != t ==> ThreadOk(s, tickets, u);
    }
    forall i | 0 <= i < |tickets| ensures TicketOk(s', tickets, i) {
      assert TicketOk(s, tickets, i);
    }
  }

  lemma KeepTakeTickets(s: State, tickets: seq<Ticket>, t: Tid) returns (tickets': seq<Ticket>)
    requires Inv(s, tickets) && t in s.threads && s.threads[t].TakeTickets?
    ensures Inv(AdvanceThread(Exact, s, t), tickets')
  {
    var s' := AdvanceThread(Exact, s, t);
    assert ThreadOk(s, tickets, t);
    var mine := seq(s.threads[t].desired, _ => Pending(t));
    tickets' := tickets + mine;
    SumsChange(s, t, s'.threads[t]);
    TallyAppend(tickets, mine, Lost);
    TallyAppend(tickets, mine, Won);
    TallyAll(mine, Pending(t), Lost);
    TallyAll(mine, Pending(t), Won);
    forall u | u in s'.threads ensures ThreadOk(s', tickets', u) {
      assert ThreadOk(s, tickets, u);
      KeepTaken(s, tickets, t, mine, u);
    }
    forall i | 0 <= i < |tickets'| ensures TicketOk(s', tickets', i) {
      if i < |tickets| {
        assert TicketOk(s, tickets, i);
        assert tickets'[..i + 1] == tickets[..i + 1];
      }
    }
  }

  lemma KeepTaken(s: State, tickets: seq<Ticket>, t: Tid, mine: seq<Ticket>, u: Tid)
    requires t in s.threads && s.threads[t].TakeTickets? && u in s.threads
    requires s.count == |tickets| && s.over <= Tally(tickets, Lost)
    requires ThreadOk(s, tickets, t) && ThreadOk(s, tickets, u) && mine == seq(s.threads[t].desired, _ => Pending(t))
    ensures ThreadOk(AdvanceThread(Exact, s, t), tickets + mine, u)
  {
    if u == t {
      assert (tickets + mine)[..|tickets|] == tickets;
    } else if s.threads[u].Recheck? {
      assert (tickets + mine)[..s.threads[u].my] == tickets[..s.threads[u].my];
    }
  }

  /** The outcome of thread `t`'s second look at the tail: how many of its tickets win. */
  ghost function Winning(s: State, t: Tid): nat
    requires t in s.threads && s.threads[t].Recheck? && s.threads[t].desired >= 0
  {
    var pc := s.threads[t];
    if pc.my - pc.over < s.tail then Min(pc.desired, s.tail - (pc.my - pc.over)) else 0
  }

  ghost function Decide(tickets: seq<Ticket>, my: nat, won: nat, desired: nat): (d: seq<Ticket>)
    requires won <= desired && my + desired <= |tickets|
    ensures |d| == |tickets|
    ensures forall i :: 0 <= i < |d| ==>
      d[i] == if my <= i < my + won then Won else if my + won <= i < my + desired then Lost else tickets[i]
  {
    tickets[..my] + seq(won, _ => Won) + seq(desired - won, _ => Lost) + tickets[my + desired..]
  }

  lemma DecideTally(tickets: seq<Ticket>, my: nat, won: nat, desired: nat, t: Tid)
    requires won <= desired && my + desired <= |tickets|
    requires forall i :: my <= i < my + desired ==> tickets[i] == Pending(t)
    ensures var d := Decide(tickets, my, won, desired);
      && |d| == |tickets|
      && Tally(d, Won) == Tally(tickets, Won) + won
      && Tally(d, Lost) == Tally(tickets, Lost) + desired - won
      && forall k :: 0 <= k <= |tickets| ==> Tally(tickets[..k], Lost) <= Tally(d[..k], Lost)
  {
    var d := Decide(tickets, my, won, desired);
    var a, w, l, c := tickets[..my], seq(won, _ => Won), seq(desired - won, _ => Lost), tickets[my + desired..];
    assert tickets == a + tickets[my..my + desired] + c;
    assert d == a + w + l + c;
    forall x | x in {Won, Lost}
      ensures Tally(d, x) == Tally(a, x) + Tally(w, x) + Tally(l, x) + Tally(c, x)
      ensures Tally(tickets, x) == Tally(a, x) + Tally(c, x)
    {
      TallyAppend(a + w + l, c, x);
      TallyAppend(a + w, l, x);
      TallyAppend(a, w, x);
      TallyAppend(a + tickets[my..my + desired], c, x);
      TallyAppend(a, tickets[my..my + desired], x);
      TallyAll(tickets[my..my + desired], Pending(t), x);
    }
    TallyAll(w, Won, Won);
    TallyAll(w, Won, Lost);
    TallyAll(l, Lost, Won);
    TallyAll(l, Lost, Lost);
    forall k | 0 <= k <= |tickets| ensures Tally(tickets[..k], Lost) <= Tally(d[..k], Lost) {
      TallyMonotone(tickets[..k], d[..k], Lost);
    }
  }

  lemma DecideCounts(s: State, tickets: seq<Ticket>, t: Tid) returns (tickets': seq<Ticket>)
    requires t in s.threads && s.threads[t].Recheck? && Counts(s, tickets) && ThreadOk(s, tickets, t)
    ensures tickets' == Decide(tickets, s.threads[t].my, Winning(s, t), s.threads[t].desired)
    ensures Counts(AdvanceThread(Exact, s, t), tickets')
    ensures forall k :: 0 <= k <= |tickets| ==> Tally(tickets[..k], Lost) <= Tally(tickets'[..k], Lost)
  {
    var pc := s.threads[t];
    tickets' := Decide(tickets, pc.my, Winning(s, t), pc.desired);
    SumsChange(s, t, AdvanceThread(Exact, s, t).threads[t]);
    DecideTally(tickets, pc.my, Winning(s, t), pc.desired, t);
  }

  lemma KeepRecheck(s: State, tickets: seq<Ticket>, t: Tid) returns (tickets': seq<Ticket>)
    requires Inv(s, tickets) && t in s.threads && s.threads[t].Recheck?
    ensures Inv(AdvanceThread(Exact, s, t), tickets')
  {
    var s' := AdvanceThread(Exact, s, t);
    assert ThreadOk(s, tickets, t);
    tickets' := DecideCounts(s, tickets, t);
    forall u | u in s'.threads ensures ThreadOk(s', tickets', u) {
      KeepThread(s, tickets, t, tickets', u);
    }
    forall i | 0 <= i < |tickets'| ensures TicketOk(s', tickets', i) {
      KeepTicket(s, tickets, t, tickets', i);
    }
  }

  lemma KeepThread(s: State, tickets: seq<Ticket>, t: Tid, tickets': seq<Ticket>, u: Tid)
    requires t in s.threads && s.threads[t].Recheck? && ThreadOk(s, tickets, t)
    requires u in s.threads && ThreadOk(s, tickets, u)
    requires tickets' == Decide(tickets, s.threads[t].my, Winning(s, t), s.threads[t].desired)
    requires forall k :: 0 <= k <= |tickets| ==> Tally(tickets[..k], Lost) <= Tally(tickets'[..k], Lost)
    ensures ThreadOk(AdvanceThread(Exact, s, t), tickets', u)
  {
    if u != t && s.threads[u].Recheck? {
      var my, desired := s.threads[u].my, s.threads[u].desired;
      forall i | my <= i < my + desired ensures tickets'[i] == Pending(u) {
        assert tickets[i] == Pending(u);
      }
    }
  }

  lemma KeepTicket(s: State, tickets: seq<Ticket>, t: Tid, tickets': seq<Ticket>, i: nat)
    requires t in s.threads && s.threads[t].Recheck? && ThreadOk(s, tickets, t)
    requires i < |tickets| && TicketOk(s, tickets, i)
    requires tickets' == Decide(tickets, s.threads[t].my, Winning(s, t), s.threads[t].desired)
    requires forall k :: 0 <= k <= |tickets| ==> Tally(tickets[..k], Lost) <= Tally(tickets'[..k], Lost)
    ensures i < |tickets'| && TicketOk(AdvanceThread(Exact, s, t), tickets', i)
  {
    var pc := s.threads[t];
    if pc.my <= i < pc.my + Winning(s, t) {
      // The overcommit was read before the tickets were taken, so that many losers precede them.
      var k := pc.my;
      assert tickets'[..i + 1] == tickets'[..k] + tickets'[k..i + 1];
      TallyAppend(tickets'[..k], tickets'[k..i + 1], Lost);
      assert pc.over <= Tally(tickets[..k], Lost) <= Tally(tickets'[..k], Lost);
    }
  }

  /** Every step of the enqueuer and of every dequeuer keeps the invariant. */
  lemma StepKeepsInv(s: State, tickets: seq<Ticket>, step: Step) returns (tickets': seq<Ticket>)
    requires Inv(s, tickets) && Enabled(Exact, s, step)
    ensures Inv(Apply(Exact, s, step), tickets')
  {
    tickets' := tickets;
    match step
    case Enqueue(n) => KeepEnqueue(s, tickets, n);
    case Start(t, max) => KeepStart(s, tickets, t, max);
    case Advance(t) =>
      if s.threads[t].TakeTickets? {
        tickets' := KeepTakeTickets(s, tickets, t);
      } else if s.threads[t].Recheck? {
        tickets' := KeepRecheck(s, tickets, t);
      } else {
        KeepSimple(s, tickets, t);
      }
  }
}
