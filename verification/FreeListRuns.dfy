/** What the invariant of the free list means for whole runs. */
module FreeListRuns {
  import opened ThreadSums
  import opened FreeList

  /** Each step of `steps` is enabled where it is taken. */
  ghost predicate Feasible(s0: State, steps: seq<Step>)
    decreases |steps|, 0
  {
    steps == [] ||
    var before := steps[..|steps| - 1];
    Feasible(s0, before) && Enabled(Run(s0, before), steps[|steps| - 1])
  }

  /** The state after the steps of `steps`, in that order. */
  ghost function Run(s0: State, steps: seq<Step>): State
    requires Feasible(s0, steps)
    decreases |steps|, 1
  {
    if steps == [] then s0 else
      Apply(Run(s0, steps[..|steps| - 1]), steps[|steps| - 1])
  }

  lemma {:induction false} RunKeepsInv(s0: State, steps: seq<Step>) returns (a: Aux)
    requires Init(s0) && Feasible(s0, steps)
    ensures Inv(Run(s0, steps), a)
    decreases |steps|
  {
    if steps == [] {
      a := Aux(map[], []);
    } else {
      a := RunKeepsInv(s0, steps[..|steps| - 1]);
      a := StepKeepsInv(Run(s0, steps[..|steps| - 1]), a, steps[|steps| - 1]);
    }
  }

  // ---------- where the nodes are ----------

  /** `pc` is inside `add`, is inserting `n`, or has popped `n` and not released it yet. */
  predicate WorksOn(pc: Pc, n: Node) {
    (pc.AddFlag? || InInsert(pc) || pc.GetReleaseTwo?) && pc.n == n
  }

  ghost function Workers(s: State, n: Node): set<Tid> { set t | t in s.threads && WorksOn(s.threads[t], n) }

  /** `chain` is the list that `freeListHead` and the `freeListNext` pointers spell out. */
  ghost predicate Spells(s: State, link: Link, chain: seq<Node>)
    decreases |chain|
  {
    if chain == [] then link == Null
    else link == To(chain[0]) && chain[0] in s.nodes && Spells(s, s.nodes[chain[0]].next, chain[1..])
  }

  ghost predicate Distinct(chain: seq<Node>) { forall i, j :: 0 <= i < j < |chain| ==> chain[i] != chain[j] }

  /** A node whose adder left it to the threads that still hold a reference to it. */
  ghost predicate Awaiting(s: State, n: Node)
    requires n in s.nodes
  {
    Flag(s.nodes[n].refs) && Workers(s, n) == {} && Holders(s.threads, n) > 0
  }

  ghost predicate ExactlyOne(p: bool, q: bool, r: bool, w: bool) {
    (if p then 1 else 0) + (if q then 1 else 0) + (if r then 1 else 0) + (if w then 1 else 0) == 1
  }

  ghost function Reverse(s: seq<Node>): (r: seq<Node>)
    ensures |r| == |s| && forall i :: 0 <= i < |s| ==> r[i] == s[|s| - 1 - i]
  {
    if s == [] then [] else [s[|s| - 1]] + Reverse(s[..|s| - 1])
  }

  lemma {:induction false} StackSpells(s: State, a: Aux, k: nat)
    requires StackOk(s, a) && k <= |a.stack|
    ensures Spells(s, Below(a.stack, k), Reverse(a.stack[..k]))
  {
    if k > 0 {
      assert StackAt(s, a, k - 1);
      assert a.stack[..k][..k - 1] == a.stack[..k - 1];
      StackSpells(s, a, k - 1);
      var chain := Reverse(a.stack[..k]);
      assert chain[1..] == Reverse(a.stack[..k - 1]);
    }
  }

  lemma WorkerHasPlace(s: State, a: Aux, t: Tid, n: Node)
    requires t in s.threads && ThreadOk(s, a, t) && WorksOn(s.threads[t], n)
    ensures n in a.place && (a.place[n] == Adding(t) || a.place[n] == Inserting(t) || a.place[n] == Popped(t))
  {
  }

  lemma WorkersOf(s: State, a: Aux, n: Node)
    requires Inv(s, a) && n in s.nodes && n in a.place
    ensures var p := a.place[n];
      Workers(s, n) == if p.Adding? || p.Inserting? || p.Popped? then {p.t} else {}
  {
    assert NodeOk(s, a, n);
    forall t | t in Workers(s, n) ensures a.place[n].Adding? || a.place[n].Inserting? || a.place[n].Popped?
      ensures a.place[n].t == t
    {
      WorkerHasPlace(s, a, t, n);
    }
  }

  /** `chain` lists exactly the nodes whose place is on the list. */
  ghost predicate ChainOf(a: Aux, chain: seq<Node>) {
    && (forall n :: n in a.place && a.place[n].OnList? ==> n in chain)
    && (forall n :: n in chain ==> n in a.place && a.place[n].OnList?)
  }

  lemma StackPlaces(s: State, a: Aux)
    requires Inv(s, a)
    ensures forall i :: 0 <= i < |a.stack| ==> a.stack[i] in a.place && a.place[a.stack[i]] == OnList(i)
    ensures forall n :: n in a.place && a.place[n].OnList? ==> a.place[n].i < |a.stack| && a.stack[a.place[n].i] == n
  {
    forall i: nat | i < |a.stack| ensures a.stack[i] in a.place && a.place[a.stack[i]] == OnList(i) {
      assert StackAt(s, a, i);
    }
    forall n | n in a.place && a.place[n].OnList? ensures a.place[n].i < |a.stack| && a.stack[a.place[n].i] == n {
      assert NodeOk(s, a, n);
    }
  }

  lemma ChainFromStack(s: State, a: Aux) returns (chain: seq<Node>)
    requires Inv(s, a)
    ensures Spells(s, s.head, chain) && Distinct(chain) && ChainOf(a, chain)
  {
    chain := Reverse(a.stack);
    assert a.stack[..|a.stack|] == a.stack;
    StackSpells(s, a, |a.stack|);
    StackPlaces(s, a);
    ReverseIsChain(a, chain);
  }

  lemma ReverseIsChain(a: Aux, chain: seq<Node>)
    requires chain == Reverse(a.stack)
    requires forall i :: 0 <= i < |a.stack| ==> a.stack[i] in a.place && a.place[a.stack[i]] == OnList(i)
    requires forall n :: n in a.place && a.place[n].OnList? ==> a.place[n].i < |a.stack| && a.stack[a.place[n].i] == n
    ensures Distinct(chain) && ChainOf(a, chain)
  {
    forall n | n in a.place && a.place[n].OnList? ensures n in chain {
      assert chain[|a.stack| - 1 - a.place[n].i] == n;
    }
  }

  lemma NodeInOnePlace(s: State, a: Aux, chain: seq<Node>, n: Node)
    requires Inv(s, a) && ChainOf(a, chain) && n in s.nodes
    ensures |Workers(s, n)| <= 1
    ensures ExactlyOne(n in s.client, n in chain, |Workers(s, n)| == 1, Awaiting(s, n))
  {
    assert NodeOk(s, a, n);
    WorkersOf(s, a, n);
  }

  /** Conservation: in every reachable state the list is acyclic, and every node is in exactly one of
      four situations: owned by a caller, on the list, being worked on by exactly one thread, or left to
      the threads that hold references to it. */
  lemma Conservation(s0: State, steps: seq<Step>) returns (chain: seq<Node>)
    requires Init(s0) && Feasible(s0, steps)
    ensures var s := Run(s0, steps);
      && Spells(s, s.head, chain) && Distinct(chain)
      && (forall n :: n in chain || n in s.client ==> n in s.nodes)
      && (forall n :: n in s.nodes ==>
            && |Workers(s, n)| <= 1
            && ExactlyOne(n in s.client, n in chain, |Workers(s, n)| == 1, Awaiting(s, n)))
  {
    var s := Run(s0, steps);
    var a := RunKeepsInv(s0, steps);
    chain := ChainFromStack(s, a);
    forall n | n in s.nodes
      ensures |Workers(s, n)| <= 1 && ExactlyOne(n in s.client, n in chain, |Workers(s, n)| == 1, Awaiting(s, n))
    {
      NodeInOnePlace(s, a, chain, n);
    }
  }

  /** A node left to its holders cannot be popped, its reference word counts exactly the holders, and the
      last holder to let go is the one that goes on to insert it. */
  lemma LastHolderInserts(s0: State, steps: seq<Step>, n: Node, t: Tid)
    requires Init(s0) && Feasible(s0, steps)
    requires var s := Run(s0, steps); n in s.nodes && Awaiting(s, n) && t in s.threads && Holding(s.threads[t], n)
    ensures var s := Run(s0, steps);
      && s.head != To(n)
      && s.nodes[n].refs == SHOULD_BE_ON_FREELIST + Holders(s.threads, n)
      && Enabled(s, Advance(t))
      && var pc, pc' := s.threads[t], Apply(s, Advance(t)).threads[t];
         (pc.GetReleaseOne? ==> (pc'.InsertLoadHead? <==> Holders(s.threads, n) == 1) && (pc'.InsertLoadHead? ==> pc'.n == n))
  {
    hide NodeOk, StackOk, Inv, Holders, ListRefs;
    var s := Run(s0, steps);
    var a := RunKeepsInv(s0, steps);
    AwaitingNode(s, a, n);
    assert ThreadOk(s, a, t);
  }

  lemma AwaitingNode(s: State, a: Aux, n: Node)
    requires Inv(s, a) && n in s.nodes && Awaiting(s, n)
    ensures s.head != To(n) && s.nodes[n].refs == SHOULD_BE_ON_FREELIST + Holders(s.threads, n)
  {
    assert NodeOk(s, a, n);
    WorkersOf(s, a, n);
    assert a.stack != [] ==> StackAt(s, a, |a.stack| - 1);
  }

  /** No ABA: when the head CAS of `try_get` is about to succeed, the `next` it installs is the current
      successor of the head, although it was read earlier; and when `try_get` has popped a node, the
      should-be-on-list flag is clear and no caller or other thread has the node. */
  lemma PopIsSafe(s0: State, steps: seq<Step>, t: Tid)
    requires Init(s0) && Feasible(s0, steps) && t in Run(s0, steps).threads
    ensures var s := Run(s0, steps);
      var pc := s.threads[t];
      && (pc.GetCasHead? && s.head == To(pc.n) ==> pc.n in s.nodes && pc.next == s.nodes[pc.n].next)
      && (pc.GetReleaseTwo? ==>
            && pc.n in s.nodes && !Flag(s.nodes[pc.n].refs)
            && pc.n !in s.client && Workers(s, pc.n) == {t})
      && (!pc.Idle? ==> Enabled(s, Advance(t)))
  {
    hide StackOk, ListRefs, Holders;
    var s := Run(s0, steps);
    var a := RunKeepsInv(s0, steps);
    assert ThreadOk(s, a, t);
    var pc := s.threads[t];
    if HasNode(pc) {
      assert NodeOk(s, a, pc.n);
      WorkersOf(s, a, pc.n);
    }
  }

  predicate AllIdle(s: State) { forall t :: t in s.threads ==> s.threads[t].Idle? }

  lemma IdleNode(s: State, a: Aux, chain: seq<Node>, n: Node)
    requires Inv(s, a) && ChainOf(a, chain) && n in s.nodes && AllIdle(s)
    ensures n in s.client <==> n !in chain
    ensures s.nodes[n].refs == if n in chain then 1 else 0
  {
    assert NodeOk(s, a, n);
    SumZero(s.threads, HoldingWeight(n));
  }

  /** Nothing is lost: when no thread is inside the free list, every node is owned by a caller or on the
      list, and the reference words hold exactly the list's own references. */
  lemma Quiescent(s0: State, steps: seq<Step>) returns (chain: seq<Node>)
    requires Init(s0) && Feasible(s0, steps) && AllIdle(Run(s0, steps))
    ensures var s := Run(s0, steps);
      && Spells(s, s.head, chain) && Distinct(chain)
      && (forall n :: n in chain ==> n in s.nodes)
      && (forall n :: n in s.nodes ==>
            && (n in s.client <==> n !in chain)
            && s.nodes[n].refs == if n in chain then 1 else 0)
  {
    var s := Run(s0, steps);
    var a := RunKeepsInv(s0, steps);
    chain := ChainFromStack(s, a);
    forall n | n in s.nodes
      ensures n in s.client <==> n !in chain
      ensures s.nodes[n].refs == if n in chain then 1 else 0
    {
      IdleNode(s, a, chain, n);
    }
  }

  // ---------- handing nodes out ----------

  /** How often a run gives `n` to a caller: by allocating it or as the result of `try_get`. */
  ghost function HandOuts(s0: State, steps: seq<Step>, n: Node): nat
    requires Feasible(s0, steps)
  {
    if steps == [] then 0 else
      var before, step := steps[..|steps| - 1], steps[|steps| - 1];
      var s := Run(s0, before);
      HandOuts(s0, before, n)
      + if step == Allocate(n) || (step.Advance? && s.threads[step.t] == GetReleaseTwo(n)) then 1 else 0
  }

  /** How often a run takes `n` back from a caller, by `add`. */
  ghost function Returns(steps: seq<Step>, n: Node): nat
  {
    if steps == [] then 0 else
      var step := steps[|steps| - 1];
      Returns(steps[..|steps| - 1], n) + if step.StartAdd? && step.n == n then 1 else 0
  }

  /** A node is handed out at most once between two calls of `add` on it: at any point of any run it has
      been handed out as often as it was given back, plus once more exactly while a caller owns it. */
  lemma {:induction false} OneOwnerBetweenAdds(s0: State, steps: seq<Step>, n: Node)
    requires Init(s0) && Feasible(s0, steps)
    ensures HandOuts(s0, steps, n) == Returns(steps, n) + if n in Run(s0, steps).client then 1 else 0
    decreases |steps|
  {
    if steps != [] {
      var before, step := steps[..|steps| - 1], steps[|steps| - 1];
      OneOwnerBetweenAdds(s0, before, n);
      var a := RunKeepsInv(s0, before);
      ClientChange(Run(s0, before), a, step, n);
    }
  }

  lemma ClientChange(s: State, a: Aux, step: Step, n: Node)
    requires Inv(s, a) && Enabled(s, step)
    ensures var given := step == Allocate(n) || (step.Advance? && s.threads[step.t] == GetReleaseTwo(n));
      var taken := step.StartAdd? && step.n == n;
      var s' := Apply(s, step);
      && (given ==> n !in s.client && n in s'.client)
      && (taken ==> n in s.client && n !in s'.client)
      && (!given && !taken ==> (n in s.client <==> n in s'.client))
  {
    if step.Advance? {
      AdvanceClient(s, step.t, n);
      if s.threads[step.t] == GetReleaseTwo(n) {
        ReleasedIsNotHeld(s, a, step.t, n);
      }
    } else {
      hide Inv;
    }
  }

  lemma ReleasedIsNotHeld(s: State, a: Aux, t: Tid, n: Node)
    requires Inv(s, a) && t in s.threads && s.threads[t] == GetReleaseTwo(n)
    ensures n !in s.client
  {
    assert ThreadOk(s, a, t) && NodeOk(s, a, n);
  }

  lemma AdvanceClient(s: State, t: Tid, n: Node)
    requires Enabled(s, Advance(t))
    ensures Apply(s, Advance(t)).client == if s.threads[t].GetReleaseTwo? then s.client + {s.threads[t].n} else s.client
  {
  }
}
