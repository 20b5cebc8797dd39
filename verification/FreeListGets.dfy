/** When `try_get` comes back with a node, and what calls do that run on their own. */
module FreeListGets {
  import opened FreeList
  import opened FreeListRuns

  // ---------- when try_get returns nothing ----------

  /** Thread `t`'s last call is of `try_get`. */
  ghost predicate CallIsGet(steps: seq<Step>, t: Tid) {
    steps != [] &&
    var step := steps[|steps| - 1];
    if step.StartGet? && step.t == t then true
    else if step.StartAdd? && step.t == t then false
    else CallIsGet(steps[..|steps| - 1], t)
  }

  /** What the head was when `try_get` of thread `t` last looked at it in its current call: by loading it, or by a
      compare-and-swap that failed. */
  ghost function LastSeen(s0: State, steps: seq<Step>, t: Tid): seq<Link>
    requires Feasible(s0, steps)
    decreases |steps|
  {
    if steps == [] then [] else
      var before, step := steps[..|steps| - 1], steps[|steps| - 1];
      var s := Run(s0, before);
      if step == StartGet(t) then []
      else if step == Advance(t) && (s.threads[t].GetLoadHead? || s.threads[t].GetCasHead?) then [s.head]
      else LastSeen(s0, before, t)
  }

  /** A thread in `try_get`, or inserting a node on its way, remembers the head as it saw it last. */
  ghost predicate Remembers(pc: Pc, isGet: bool, seen: seq<Link>) {
    match pc
    case Idle => true
    case AddFlag(n) => !isGet
    case InsertLoadHead(n, ret) => RemembersReturn(ret, isGet, seen)
    case InsertStoreNext(n, head, ret) => RemembersReturn(ret, isGet, seen)
    case InsertStoreRefs(n, head, ret) => RemembersReturn(ret, isGet, seen)
    case InsertCasHead(n, head, ret) => RemembersReturn(ret, isGet, seen)
    case InsertUndo(n, head, ret) => RemembersReturn(ret, isGet, seen)
    case GetLoadHead => isGet
    case GetLoadRefs(head) => isGet && seen == [head]
    case GetCasRefs(n, refs) => isGet
    case GetLoadNext(n) => isGet
    case GetCasHead(n, next) => isGet
    case GetReleaseTwo(n) => isGet
    case GetReleaseOne(n, head) => isGet && seen == [head]
  }

  ghost predicate RemembersReturn(ret: Return, isGet: bool, seen: seq<Link>) {
    if ret.ToAdd? then !isGet else isGet && seen == [ret.head]
  }

  ghost predicate RemembersAt(s0: State, steps: seq<Step>, t: Tid)
    requires Feasible(s0, steps)
  {
    t in Run(s0, steps).threads ==> Remembers(Run(s0, steps).threads[t], CallIsGet(steps, t), LastSeen(s0, steps, t))
  }

  lemma RemembersStep(s: State, step: Step, t: Tid, isGet: bool, seen: seq<Link>)
    requires Enabled(s, step) && t in s.threads && Remembers(s.threads[t], isGet, seen)
    ensures var s' := Apply(s, step);
      && t in s'.threads
      && Remembers(s'.threads[t],
                   if step == StartGet(t) then true else if step.StartAdd? && step.t == t then false else isGet,
                   if step == StartGet(t) then []
                   else if step == Advance(t) && (s.threads[t].GetLoadHead? || s.threads[t].GetCasHead?) then [s.head] else seen)
  {
  }

  lemma IdleRemembers()
    ensures Remembers(Idle, false, [])
  {
  }

  lemma ThreadsStay(s: State, step: Step, t: Tid)
    requires Enabled(s, step)
    ensures t in Apply(s, step).threads <==> t in s.threads
  {
  }

  lemma {:induction false} AlwaysRemembers(s0: State, steps: seq<Step>, t: Tid)
    requires Init(s0) && Feasible(s0, steps)
    ensures RemembersAt(s0, steps, t)
    decreases |steps|
  {
    hide Apply, Enabled, Remembers;
    if steps == [] {
      IdleRemembers();
    } else {
      var before, step := steps[..|steps| - 1], steps[|steps| - 1];
      AlwaysRemembers(s0, before, t);
      ThreadsStay(Run(s0, before), step, t);
      if t in Run(s0, before).threads {
        RemembersStep(Run(s0, before), step, t, CallIsGet(before, t), LastSeen(s0, before, t));
      }
    }
  }

  /** `try_get` comes back with nothing only if the list was empty when it last looked at the head: in every run, if a
      call of `try_get` ends and nobody has been given a node, the head it saw last was null. */
  lemma NothingOnlyIfEmpty(s0: State, steps: seq<Step>, t: Tid)
    requires Init(s0) && Feasible(s0, steps) && Enabled(Run(s0, steps), Advance(t)) && CallIsGet(steps, t)
    requires var s, s' := Run(s0, steps), Apply(Run(s0, steps), Advance(t));
      t in s'.threads && s'.threads[t].Idle? && s'.client == s.client
    ensures LastSeen(s0, steps, t) == [Null]
  {
    hide Inv;
    var s := Run(s0, steps);
    AlwaysRemembers(s0, steps, t);
    var a := RunKeepsInv(s0, steps);
    if s.threads[t].GetReleaseTwo? {
      ReleasedIsNotHeld(s, a, t, s.threads[t].n);
      AdvanceClient(s, t, s.threads[t].n);
    }
  }

  // ---------- calls that run on their own ----------

  ghost function Alone(first: Step, t: Tid, n: nat): seq<Step> { [first] + seq(n, _ => Advance(t)) }

  /** The call that starts with `first` and runs on its own for `n` steps leads from `s` to `s'`. */
  ghost predicate Leads(s: State, first: Step, t: Tid, n: nat, s': State) {
    Feasible(s, Alone(first, t, n)) && Run(s, Alone(first, t, n)) == s'
  }

  lemma LeadsFirst(s: State, first: Step, t: Tid)
    requires Enabled(s, first)
    ensures Leads(s, first, t, 0, Apply(s, first))
  {
    var all := Alone(first, t, 0);
    assert all == [first] && all[..0] == [];
    assert Run(s, []) == s;
  }

  lemma LeadsOn(s: State, first: Step, t: Tid, n: nat, s1: State)
    requires Leads(s, first, t, n, s1) && Enabled(s1, Advance(t))
    ensures Leads(s, first, t, n + 1, Apply(s1, Advance(t)))
  {
    var all := Alone(first, t, n + 1);
    assert all[..|all| - 1] == Alone(first, t, n) && all[|all| - 1] == Advance(t);
  }

  /** A call that has ended takes no further step, so this is the only way it ends on its own. */
  lemma {:induction false} EndsOnce(s: State, first: Step, t: Tid, n: nat, m: nat)
    requires Feasible(s, Alone(first, t, n)) && t in Run(s, Alone(first, t, n)).threads
    requires Run(s, Alone(first, t, n)).threads[t].Idle? && Feasible(s, Alone(first, t, m))
    ensures m <= n
    decreases m
  {
    if m > n {
      var all := Alone(first, t, m);
      assert all[..|all| - 1] == Alone(first, t, m - 1) && all[|all| - 1] == Advance(t);
      if m > n + 1 {
        EndsOnce(s, first, t, n, m - 1);
      }
    }
  }

  /** With nobody inside, the list is what the head spells, with one reference for each node on it. */
  ghost predicate Quiet(s: State, chain: seq<Node>) {
    && AllIdle(s) && Spells(s, s.head, chain) && Distinct(chain)
    && (forall n :: n in chain ==> n in s.nodes)
    && (forall n :: n in s.nodes ==> (n in s.client <==> n !in chain) && s.nodes[n].refs == if n in chain then 1 else 0)
  }

  /** A `try_get` on its own takes the first node of the list if there is one, and else nothing. */
  lemma GetAlone(s: State, t: Tid, chain: seq<Node>) returns (n: nat, s': State)
    requires Quiet(s, chain) && t in s.threads
    ensures Leads(s, StartGet(t), t, n, s') && s'.threads == s.threads
    ensures if chain == [] then s' == s
            else s'.client == s.client + {chain[0]} && Quiet(s', chain[1..]) && s'.nodes.Keys == s.nodes.Keys
  {
    var first := StartGet(t);
    var s1 := Apply(s, first);
    LeadsFirst(s, first, t);
    var s2 := Apply(s1, Advance(t));
    LeadsOn(s, first, t, 0, s1);
    var s3 := Apply(s2, Advance(t));
    LeadsOn(s, first, t, 1, s2);
    if chain == [] {
      n, s' := 2, s3;
      assert s'.threads == s.threads;
    } else {
      n := 6;
      s' := TakesFirst(s, t, chain, s3);
    }
  }

  lemma TakesFirst(s: State, t: Tid, chain: seq<Node>, s3: State) returns (s': State)
    requires Quiet(s, chain) && t in s.threads && chain != []
    requires s3 == Go(s, t, GetCasRefs(chain[0], 1)) && Leads(s, StartGet(t), t, 2, s3)
    ensures Leads(s, StartGet(t), t, 6, s') && s'.threads == s.threads
    ensures s'.client == s.client + {chain[0]} && Quiet(s', chain[1..]) && s'.nodes.Keys == s.nodes.Keys
  {
    hide Leads, Quiet;
    var first, top := StartGet(t), chain[0];
    FirstOfQuiet(s, chain);
    var next := s.nodes[top].next;
    var s4 := Go(SetRefs(s, top, 2), t, GetLoadNext(top));
    LeadsOn(s, first, t, 2, s3);
    assert Apply(s3, Advance(t)).threads == s4.threads;
    var s5 := Go(s4, t, GetCasHead(top, next));
    LeadsOn(s, first, t, 3, s4);
    assert Apply(s4, Advance(t)).threads == s5.threads;
    s' := Pops(s, t, chain, s5);
  }

  lemma Pops(s: State, t: Tid, chain: seq<Node>, s5: State) returns (s': State)
    requires Quiet(s, chain) && t in s.threads && chain != [] && chain[0] in s.nodes
    requires s5 == Go(SetRefs(s, chain[0], 2), t, GetCasHead(chain[0], s.nodes[chain[0]].next)) && Leads(s, StartGet(t), t, 4, s5)
    ensures Leads(s, StartGet(t), t, 6, s') && s'.threads == s.threads
    ensures s'.client == s.client + {chain[0]} && Quiet(s', chain[1..]) && s'.nodes.Keys == s.nodes.Keys
  {
    hide Leads, Quiet;
    var first, top := StartGet(t), chain[0];
    FirstOfQuiet(s, chain);
    IdleAgain(s, chain, t);
    var s6 := Go(s5.(head := s.nodes[top].next), t, GetReleaseTwo(top));
    LeadsOn(s, first, t, 4, s5);
    s' := Go(SetRefs(s6, top, 0).(client := s.client + {top}), t, Idle);
    LeadsOn(s, first, t, 5, s6);
    assert s'.threads == s.threads[t := Idle];
    QuietWithout(s, chain, s');
  }

  lemma FirstOfQuiet(s: State, chain: seq<Node>)
    requires Quiet(s, chain) && chain != []
    ensures s.head == To(chain[0]) && chain[0] in s.nodes && s.nodes[chain[0]].refs == 1 && chain[0] !in s.client
    ensures Spells(s, s.nodes[chain[0]].next, chain[1..])
  {
  }

  lemma IdleAgain(s: State, chain: seq<Node>, t: Tid)
    requires Quiet(s, chain) && t in s.threads
    ensures s.threads[t := Idle] == s.threads
  {
  }

  /** The chain is spelled by the `next` pointers of its own nodes. */
  lemma {:induction false} SpellsSame(s: State, s': State, link: Link, chain: seq<Node>)
    requires Spells(s, link, chain) && forall n :: n in chain ==> n in s'.nodes && n in s.nodes && s'.nodes[n].next == s.nodes[n].next
    ensures Spells(s', link, chain)
    decreases |chain|
  {
    if chain != [] {
      SpellsSame(s, s', s.nodes[chain[0]].next, chain[1..]);
    }
  }

  lemma QuietWithout(s: State, chain: seq<Node>, s': State)
    requires Quiet(s, chain) && chain != [] && s.head == To(chain[0]) && chain[0] in s.nodes
    requires s'.threads == s.threads && s'.client == s.client + {chain[0]} && s'.head == s.nodes[chain[0]].next
    requires s'.nodes == s.nodes[chain[0] := Cell(0, s.nodes[chain[0]].next)]
    ensures Quiet(s', chain[1..])
  {
    FirstOfQuiet(s, chain);
    SpellsSame(s, s', s.nodes[chain[0]].next, chain[1..]);
    forall n ensures n in chain[1..] <==> n in chain && n != chain[0] {
      assert n in chain && n != chain[0] ==> exists i :: 0 < i < |chain| && chain[i] == n;
    }
  }

  /** An `add` on its own puts the node on top of the list. */
  lemma AddAlone(s: State, t: Tid, n: Node, chain: seq<Node>) returns (s': State)
    requires Quiet(s, chain) && t in s.threads && n in s.client && n in s.nodes
    ensures Leads(s, StartAdd(t, n), t, 5, s') && s'.threads == s.threads
    ensures s'.client == s.client - {n} && Quiet(s', [n] + chain) && s'.nodes.Keys == s.nodes.Keys
  {
    hide Leads, Quiet;
    var first := StartAdd(t, n);
    IdleAgain(s, chain, t);
    OwnedIsFree(s, chain, n);
    var s0 := s.(client := s.client - {n});
    var s1 := Go(s0, t, AddFlag(n));
    LeadsFirst(s, first, t);
    var s2 := Go(SetRefs(s0, n, SHOULD_BE_ON_FREELIST), t, InsertLoadHead(n, ToAdd));
    LeadsOn(s, first, t, 0, s1);
    assert Apply(s1, Advance(t)).threads == s2.threads;
    var s3 := Go(s2, t, InsertStoreNext(n, s.head, ToAdd));
    LeadsOn(s, first, t, 1, s2);
    assert Apply(s2, Advance(t)).threads == s3.threads;
    s' := Pushes(s, t, n, chain, s3);
  }

  lemma OwnedIsFree(s: State, chain: seq<Node>, n: Node)
    requires Quiet(s, chain) && n in s.client && n in s.nodes
    ensures n !in chain && s.nodes[n].refs == 0
  {
  }

  lemma Pushes(s: State, t: Tid, n: Node, chain: seq<Node>, s3: State) returns (s': State)
    requires Quiet(s, chain) && t in s.threads && n in s.client && n in s.nodes
    requires s3 == Go(SetRefs(s.(client := s.client - {n}), n, SHOULD_BE_ON_FREELIST), t, InsertStoreNext(n, s.head, ToAdd))
    requires Leads(s, StartAdd(t, n), t, 2, s3)
    ensures Leads(s, StartAdd(t, n), t, 5, s') && s'.threads == s.threads
    ensures s'.client == s.client - {n} && Quiet(s', [n] + chain) && s'.nodes.Keys == s.nodes.Keys
  {
    hide Leads, Quiet;
    var first := StartAdd(t, n);
    IdleAgain(s, chain, t);
    var s4 := Go(s3.(nodes := s3.nodes[n := Cell(SHOULD_BE_ON_FREELIST, s.head)]), t, InsertStoreRefs(n, s.head, ToAdd));
    LeadsOn(s, first, t, 2, s3);
    var s5 := Go(SetRefs(s4, n, 1), t, InsertCasHead(n, s.head, ToAdd));
    LeadsOn(s, first, t, 3, s4);
    s' := Go(s5.(head := To(n)), t, Idle);
    LeadsOn(s, first, t, 4, s5);
    assert s'.threads == s.threads[t := Idle];
    assert s'.nodes == s.nodes[n := Cell(1, s.head)];
    QuietWith(s, chain, n, s');
  }

  lemma QuietWith(s: State, chain: seq<Node>, n: Node, s': State)
    requires Quiet(s, chain) && n in s.client && n in s.nodes && s'.threads == s.threads && s'.client == s.client - {n}
    requires s'.head == To(n) && s'.nodes == s.nodes[n := Cell(1, s.head)]
    ensures Quiet(s', [n] + chain)
  {
    OwnedIsFree(s, chain, n);
    SpellsSame(s, s', s.head, chain);
    assert ([n] + chain)[1..] == chain;
  }

  // ---------- after any run ----------

  lemma QuietAfter(s0: State, steps: seq<Step>) returns (chain: seq<Node>)
    requires Init(s0) && Feasible(s0, steps) && AllIdle(Run(s0, steps))
    ensures Quiet(Run(s0, steps), chain)
  {
    chain := Quiescent(s0, steps);
  }

  /** When nobody is inside the free list, a `try_get` that runs on its own ends, and it hands out the first node of
      the list and leaves the others, or finds the list empty and changes nothing. */
  lemma LoneGet(s0: State, steps: seq<Step>, t: Tid) returns (chain: seq<Node>, n: nat, s': State)
    requires Init(s0) && Feasible(s0, steps) && AllIdle(Run(s0, steps)) && t in Run(s0, steps).threads
    ensures var s := Run(s0, steps);
      && Quiet(s, chain) && Leads(s, StartGet(t), t, n, s') && s'.threads == s.threads
      && (forall m: nat :: Feasible(s, Alone(StartGet(t), t, m)) ==> m <= n)
      && if chain == [] then s' == s
         else s'.client == s.client + {chain[0]} && Quiet(s', chain[1..]) && s'.nodes.Keys == s.nodes.Keys
  {
    chain := QuietAfter(s0, steps);
    n, s' := GetAlone(Run(s0, steps), t, chain);
    Ends(Run(s0, steps), StartGet(t), t, n, s');
  }

  /** And an `add` puts the node on top. */
  lemma LoneAdd(s0: State, steps: seq<Step>, t: Tid, node: Node) returns (chain: seq<Node>, s': State)
    requires Init(s0) && Feasible(s0, steps) && AllIdle(Run(s0, steps)) && t in Run(s0, steps).threads
    requires node in Run(s0, steps).client
    ensures var s := Run(s0, steps);
      && Quiet(s, chain) && Leads(s, StartAdd(t, node), t, 5, s') && s'.threads == s.threads
      && (forall m: nat :: Feasible(s, Alone(StartAdd(t, node), t, m)) ==> m <= 5)
      && s'.client == s.client - {node} && Quiet(s', [node] + chain) && s'.nodes.Keys == s.nodes.Keys
  {
    chain := QuietAfter(s0, steps);
    var a := RunKeepsInv(s0, steps);
    s' := AddAlone(Run(s0, steps), t, node, chain);
    Ends(Run(s0, steps), StartAdd(t, node), t, 5, s');
  }

  lemma Ends(s: State, first: Step, t: Tid, n: nat, s': State)
    requires Leads(s, first, t, n, s') && t in s'.threads && s'.threads[t].Idle?
    ensures forall m: nat :: Feasible(s, Alone(first, t, m)) ==> m <= n
  {
    forall m: nat | Feasible(s, Alone(first, t, m)) ensures m <= n {
      EndsOnce(s, first, t, n, m);
    }
  }
}
