/** What a bulk enqueue does as a whole: the boolean it returns tells whether it has published its items, and if
    it has not, everything it took has been given back. */
module ImplicitCalls {
  import opened Ring
  import BI = BlockIndex
  import opened ImplicitQueue
  import opened ImplicitQueueInv
  import opened ImplicitRuns

  predicate NoCall(steps: seq<Step>) { forall i :: 0 <= i < |steps| ==> !steps[i].Enqueue? }

  /** What the call that the producer is in the middle of can still publish. */
  function Pending(p: Producer): seq<Elem> { if Trying(p) then p.items else [] }

  /** The producer may still succeed. */
  predicate Trying(p: Producer) {
    p.PInsert? || p.PGrow? || p.PStoreKey? || p.PStoreTail? || p.PTakeBlock? || p.PReset? || p.PStoreBlock? || p.PWrite?
  }

  // ---------- nothing halfway ----------

  lemma PendingStep(s: State, step: Step)
    requires Enabled(s, step) && !step.Enqueue?
    ensures || (Published(s, step) == [] && Pending(Apply(s, step).producer) in {Pending(s.producer), []})
            || (Published(s, step) == Pending(s.producer) && Pending(Apply(s, step).producer) == [])
  {
  }

  lemma {:induction false} PendingRun(s: State, steps: seq<Step>)
    requires Feasible(s, steps) && NoCall(steps)
    ensures Log(s, steps) == Pending(s.producer) || Log(s, steps) == []
    decreases |steps|
  {
    if steps != [] {
      PendingStep(s, steps[0]);
      PendingRun(Apply(s, steps[0]), steps[1..]);
    }
  }

  /** A bulk enqueue is all or nothing at every moment: since the start of the call either exactly its items have
      become visible, in order, or nothing has and the tail is where it was. */
  lemma AllOrNothing(s0: State, before: seq<Step>, items: seq<Elem>, call: seq<Step>)
    requires Init(s0) && Feasible(s0, before) && AllProper(before) && Run(s0, before).producer.PIdle?
    requires Feasible(Run(s0, before), [Enqueue(items)] + call) && AllProper(call) && NoCall(call)
    ensures var s := Run(s0, before);
      var s' := Run(s, [Enqueue(items)] + call);
      || (Log(s, [Enqueue(items)] + call) == items && s'.tail == s.tail + |items|)
      || (Log(s, [Enqueue(items)] + call) == [] && s'.tail == s.tail)
  {
    var s := Run(s0, before);
    var a := Reachable(s0, before);
    var a' := RunKeeps(s, a, [Enqueue(items)] + call);
    assert ([Enqueue(items)] + call)[1..] == call;
    PendingRun(Apply(s, Enqueue(items)), call);
    assert [] + Log(Apply(s, Enqueue(items)), call) == Log(Apply(s, Enqueue(items)), call);
  }

  // ---------- the result ----------

  /** What the call returns, if the step is its last. */
  function Result(s: State, step: Step): seq<bool> {
    if !step.Produce? then []
    else if s.producer.PWrite? && s.producer.j >= |s.producer.items| then [true]
    else if s.producer.PUndoFree? && s.producer.k >= |s.producer.got| then [false]
    else []
  }

  function Results(s: State, steps: seq<Step>): seq<bool>
    requires Feasible(s, steps)
    decreases |steps|
  {
    if steps == [] then [] else Result(s, steps[0]) + Results(Apply(s, steps[0]), steps[1..])
  }

  /** The block that the step takes out of the pool, or allocates. */
  function TakesAt(p: Producer, choice: Choice): multiset<Block> {
    if p.PTakeBlock? && choice.Take? then multiset{choice.block} else multiset{}
  }

  function Takes(s: State, step: Step): multiset<Block> {
    if step.Produce? then TakesAt(s.producer, step.choice) else multiset{}
  }

  function Taken(s: State, steps: seq<Step>): multiset<Block>
    requires Feasible(s, steps)
    decreases |steps|
  {
    if steps == [] then multiset{} else Takes(s, steps[0]) + Taken(Apply(s, steps[0]), steps[1..])
  }

  /** The block that the step gives back to the pool. */
  function GivesAt(p: Producer): multiset<Block> {
    if p.PUndoFree? && p.k < |p.got| then multiset{p.got[p.k]} else multiset{}
  }

  function Gives(s: State, step: Step): multiset<Block> {
    if step.Produce? then GivesAt(s.producer) else multiset{}
  }

  function Given(s: State, steps: seq<Step>): multiset<Block>
    requires Feasible(s, steps)
    decreases |steps|
  {
    if steps == [] then multiset{} else Gives(s, steps[0]) + Given(Apply(s, steps[0]), steps[1..])
  }

  /** The blocks that the call has taken and not given back. */
  function Hands(p: Producer): multiset<Block> {
    if p.PIdle? then multiset{}
    else if p.PReset? || p.PStoreBlock? then multiset(p.got) + multiset{p.block}
    else if p.PUndoFree? then if p.k <= |p.got| then multiset(p.got[p.k..]) else multiset{}
    else multiset(p.got)
  }

  /** How far the index tail is ahead of where it was when the call began. */
  function Ahead(p: Producer): int {
    if p.PIdle? || p.PUndoFree? then 0
    else if p.PTakeBlock? || p.PReset? || p.PStoreBlock? || p.PRewind? then |p.got| + 1
    else if p.PUndoClear? || p.PUndoRewind? then |p.got| - p.k
    else |p.got|
  }

  /** The counters of the call are in their ranges. */
  predicate Counted(s: State) {
    var p := s.producer;
    && (p.PInsert? ==> |p.got| <= Needed(s.tail, |p.items|))
    && (Trying(p) && !p.PInsert? && !p.PWrite? ==> |p.got| < Needed(s.tail, |p.items|))
    && (p.PWrite? ==> |p.got| == Needed(s.tail, |p.items|))
    && (p.PUndoClear? || p.PUndoFree? ==> p.k <= |p.got|)
    && (p.PUndoRewind? ==> p.k < |p.got|)
  }

  predicate SameIndexTail(before: BI.Index, after: BI.Index, d: int) {
    && |before.headers| > 0 && |after.headers| >= |before.headers|
    && (|after.headers| == |before.headers| ==>
          && BI.Current(after).capacity == BI.Current(before).capacity > 0
          && BI.Current(after).tail == Wrap(BI.Current(before).tail + d, BI.Current(before).capacity))
  }

  /** A step in the middle of a call that is not its last: what it does to the blocks, */
  predicate Holding(s: State, s': State, step: Step) {
    && Counted(s') && !s'.producer.PIdle? && s'.tail == s.tail && s'.tailBlock == s.tailBlock
    && (Trying(s'.producer) ==> Trying(s.producer) && s'.producer.items == s.producer.items && Gives(s, step) == multiset{})
    && Hands(s'.producer) + Gives(s, step) == Hands(s.producer) + Takes(s, step)
    && Published(s, step) == []
  }

  /** ... and to the index. */
  predicate Middle(s: State, s': State, step: Step) {
    Holding(s, s', step) && SameIndexTail(s.ix, s'.ix, Ahead(s'.producer) - Ahead(s.producer))
  }

  lemma TailStays(ix: BI.Index, ix': BI.Index)
    requires BI.Shape(ix) && ix'.headers == ix.headers
    ensures SameIndexTail(ix, ix', 0)
  {
    assert BI.HeaderOk(ix, BI.Last(ix));
  }

  lemma TailForward(ix: BI.Index)
    requires BI.Shape(ix)
    ensures SameIndexTail(ix, BI.StoreTail(ix, BI.NewTail(ix)), 1)
  {
    assert BI.HeaderOk(ix, BI.Last(ix));
  }

  lemma TailBack(ix: BI.Index)
    requires BI.Shape(ix)
    ensures SameIndexTail(ix, BI.Rewind(ix), -1)
  {
    assert BI.HeaderOk(ix, BI.Last(ix));
  }

  lemma IndexMoves(s: State, choice: Choice)
    requires BI.Shape(s.ix) && Enabled(s, Produce(choice)) && Counted(s) && Result(s, Produce(choice)) == []
    ensures var s' := Apply(s, Produce(choice)); SameIndexTail(s.ix, s'.ix, Ahead(s'.producer) - Ahead(s.producer))
  {
    hide BI.Shape, BI.EntryAt, BI.NewTail, BI.Rewind, BI.StoreTail, BI.Grow, UndoEntry, TailKey, SameIndexTail, WriteBlock;
    var p, s' := s.producer, Apply(s, Produce(choice));
    if p.PStoreTail? {
      TailForward(s.ix);
    } else if p.PRewind? || p.PUndoRewind? {
      TailBack(s.ix);
    } else if p.PGrow? && s'.ix != s.ix {
      GrowsIndex(s.ix, Ahead(s'.producer) - Ahead(p));
    } else {
      TailStays(s.ix, s'.ix);
    }
  }

  lemma GrowsIndex(ix: BI.Index, d: int)
    requires BI.Shape(ix)
    ensures SameIndexTail(ix, BI.Grow(ix), d)
  {
  }

  lemma OthersInTheMiddle(s: State, step: Step)
    requires BI.Shape(s.ix) && Enabled(s, step) && !step.Enqueue? && !step.Produce? && Counted(s)
    ensures var s' := Apply(s, step);
      && s'.producer == s.producer && s'.tail == s.tail && s'.tailBlock == s.tailBlock && s'.ix.headers == s.ix.headers
      && Counted(s')
  {
  }

  /** How the producer goes on in the middle of a call that needs `n` blocks. */
  predicate GoesOn(p: Producer, p': Producer, n: int, choice: Choice) {
    match p
    case PIdle => false
    case PInsert(items, got) =>
      if |got| >= n then p' == PWrite(items, got, 0)
      else p' == PUndoClear(got, 0) || p' == PGrow(items, got) || (p'.PStoreKey? && p'.items == items && p'.got == got)
    case PGrow(items, got) => p' == PUndoClear(got, 0) || (p'.PStoreKey? && p'.items == items && p'.got == got)
    case PStoreKey(items, got, e) => p' == PStoreTail(items, got, e)
    case PStoreTail(items, got, e) => p' == PTakeBlock(items, got, e)
    case PTakeBlock(items, got, e) => p' == if choice.Take? then PReset(items, got, e, choice.block) else PRewind(got, e)
    case PReset(items, got, e, block) => p' == PStoreBlock(items, got, e, block)
    case PStoreBlock(items, got, e, block) => p' == PInsert(items, got + [block])
    case PRewind(got, e) => p' == PClear(got, e)
    case PClear(got, e) => p' == PUndoClear(got, 0)
    case PUndoClear(got, k) => p' == if k < |got| then PUndoRewind(got, k) else PUndoFree(got, 0)
    case PUndoRewind(got, k) => p' == PUndoClear(got, k + 1)
    case PUndoFree(got, k) => k < |got| && p' == PUndoFree(got, k + 1)
    case PWrite(items, got, j) => j < |items| && p' == PWrite(items, got, j + 1)
  }

  lemma ProducerGoesOn(s: State, choice: Choice)
    requires Enabled(s, Produce(choice)) && Result(s, Produce(choice)) == []
    ensures var s' := Apply(s, Produce(choice)); var p := s.producer;
      && s'.tail == s.tail && s'.tailBlock == s.tailBlock
      && GoesOn(p, s'.producer, if p.PInsert? then Needed(s.tail, |p.items|) else 0, choice)
  {
    hide BI.Shape, BI.EntryAt, BI.NewTail, BI.Rewind, BI.StoreTail, BI.StoreKey, BI.StoreValue, BI.Grow, UndoEntry, TailKey, Needed, WriteBlock;
  }

  /** The blocks in hand change by what is taken and given. */
  lemma HandsMove(p: Producer, p': Producer, n: int, choice: Choice)
    requires GoesOn(p, p', n, choice)
    ensures Hands(p') + GivesAt(p) == Hands(p) + TakesAt(p, choice)
  {
    hide Hands, GivesAt, TakesAt;
    if p.PTakeBlock? || p.PReset? || p.PStoreBlock? {
      TakenMoves(p, p', n, choice);
    } else if p.PUndoFree? {
      GivenMoves(p, p', n, choice);
    } else if p.PInsert? || p.PGrow? {
      InsertMoves(p, p', n, choice);
    } else if p.PStoreKey? || p.PStoreTail? || p.PWrite? {
      HeldMoves(p, p', n, choice);
    } else {
      UndoneMoves(p, p', n, choice);
    }
  }

  lemma InsertMoves(p: Producer, p': Producer, n: int, choice: Choice)
    requires GoesOn(p, p', n, choice) && (p.PInsert? || p.PGrow?)
    ensures Hands(p') + GivesAt(p) == Hands(p) + TakesAt(p, choice)
  {
  }

  lemma HeldMoves(p: Producer, p': Producer, n: int, choice: Choice)
    requires GoesOn(p, p', n, choice) && (p.PStoreKey? || p.PStoreTail? || p.PWrite?)
    ensures Hands(p') + GivesAt(p) == Hands(p) + TakesAt(p, choice)
  {
  }

  lemma UndoneMoves(p: Producer, p': Producer, n: int, choice: Choice)
    requires GoesOn(p, p', n, choice) && (p.PRewind? || p.PClear? || p.PUndoClear? || p.PUndoRewind?)
    ensures Hands(p') + GivesAt(p) == Hands(p) + TakesAt(p, choice)
  {
    assert p.PUndoClear? ==> p.got[0..] == p.got;
  }

  lemma TakenMoves(p: Producer, p': Producer, n: int, choice: Choice)
    requires GoesOn(p, p', n, choice) && (p.PTakeBlock? || p.PReset? || p.PStoreBlock?)
    ensures Hands(p') + GivesAt(p) == Hands(p) + TakesAt(p, choice)
  {
    if p.PStoreBlock? {
      assert multiset(p.got + [p.block]) == multiset(p.got) + multiset{p.block};
    }
  }

  lemma GivenMoves(p: Producer, p': Producer, n: int, choice: Choice)
    requires GoesOn(p, p', n, choice) && p.PUndoFree?
    ensures Hands(p') + GivesAt(p) == Hands(p) + TakesAt(p, choice)
  {
    HandGiven(p.got, p.k);
  }

  lemma HandGiven(got: seq<Block>, k: nat)
    requires k < |got|
    ensures multiset(got[k + 1..]) + multiset{got[k]} == multiset(got[k..])
  {
    assert got[k..] == [got[k]] + got[k + 1..];
  }

  lemma ProducerHolding(s: State, choice: Choice)
    requires Enabled(s, Produce(choice)) && Counted(s) && Result(s, Produce(choice)) == [] && !s.producer.PIdle?
    ensures Holding(s, Apply(s, Produce(choice)), Produce(choice))
  {
    hide Hands, Apply, Needed;
    var p, s' := s.producer, Apply(s, Produce(choice));
    ProducerGoesOn(s, choice);
    HandsMove(p, s'.producer, if p.PInsert? then Needed(s.tail, |p.items|) else 0, choice);
  }

  /** Every step of a call but the last one. */
  lemma MiddleStep(s: State, step: Step)
    requires BI.Shape(s.ix) && Enabled(s, step) && !step.Enqueue? && Counted(s) && !s.producer.PIdle? && Result(s, step) == []
    ensures Middle(s, Apply(s, step), step)
  {
    hide Hands, Ahead, Needed, Counted, Apply, Enabled, SameIndexTail, BI.Shape, Holding;
    if !step.Produce? {
      OthersInTheMiddle(s, step);
      OthersHolding(s, step);
      TailStays(s.ix, Apply(s, step).ix);
    } else {
      IndexMoves(s, step.choice);
      ProducerHolding(s, step.choice);
    }
  }

  lemma OthersHolding(s: State, step: Step)
    requires BI.Shape(s.ix) && Enabled(s, step) && !step.Enqueue? && !step.Produce? && Counted(s) && !s.producer.PIdle?
    ensures Holding(s, Apply(s, step), step)
  {
    hide Hands, Needed, Counted, Apply, Enabled, BI.Shape;
    OthersInTheMiddle(s, step);
  }

  lemma LastStep(s: State, step: Step)
    requires Enabled(s, step) && Counted(s) && Result(s, step) != []
    ensures var s' := Apply(s, step);
      && s'.producer.PIdle? && Takes(s, step) == Gives(s, step) == multiset{} && s'.ix == s.ix
      && if Result(s, step) == [true] then
           && Trying(s.producer) && Published(s, step) == s.producer.items && s'.tail == s.tail + |s.producer.items|
           && |Hands(s.producer)| == Needed(s.tail, |s.producer.items|)
         else
           && Result(s, step) == [false] && !Trying(s.producer) && Published(s, step) == []
           && s'.tail == s.tail && s'.tailBlock == s.tailBlock
           && Hands(s.producer) == multiset{} && Ahead(s.producer) == 0
  {
  }

  lemma IdleStep(s: State, step: Step)
    requires Enabled(s, step) && !step.Enqueue? && s.producer.PIdle?
    ensures var s' := Apply(s, step);
      && s'.producer.PIdle? && s'.tail == s.tail && s'.tailBlock == s.tailBlock && s'.ix.headers == s.ix.headers
      && Takes(s, step) == Gives(s, step) == multiset{} && Result(s, step) == [] && Published(s, step) == []
  {
  }

  /** After the call nothing happens until the next one. */
  lemma {:induction false} IdleRun(s: State, steps: seq<Step>)
    requires Feasible(s, steps) && NoCall(steps) && s.producer.PIdle?
    ensures var s' := Run(s, steps);
      && s'.tail == s.tail && s'.tailBlock == s.tailBlock && s'.ix.headers == s.ix.headers
      && Taken(s, steps) == Given(s, steps) == multiset{} && Results(s, steps) == [] && Log(s, steps) == []
    decreases |steps|
  {
    if steps != [] {
      IdleStep(s, steps[0]);
      IdleRun(Apply(s, steps[0]), steps[1..]);
    }
  }

  /** How a call ends. */
  ghost predicate Succeeds(s: State, steps: seq<Step>)
    requires Feasible(s, steps)
  {
    && Results(s, steps) == [true] && Trying(s.producer) && Log(s, steps) == s.producer.items
    && Run(s, steps).tail == s.tail + |s.producer.items|
    && Given(s, steps) == multiset{} && |Hands(s.producer) + Taken(s, steps)| == Needed(s.tail, |s.producer.items|)
  }

  ghost predicate Fails(s: State, steps: seq<Step>)
    requires Feasible(s, steps)
  {
    && Results(s, steps) == [false] && Log(s, steps) == []
    && Run(s, steps).tail == s.tail && Run(s, steps).tailBlock == s.tailBlock
    && Given(s, steps) == Hands(s.producer) + Taken(s, steps)
    && SameIndexTail(s.ix, Run(s, steps).ix, -Ahead(s.producer))
  }

  lemma TailMoves(x: BI.Index, y: BI.Index, z: BI.Index, d: int, e: int)
    requires SameIndexTail(x, y, d) && SameIndexTail(y, z, e)
    ensures SameIndexTail(x, z, d + e)
  {
    if |z.headers| == |x.headers| {
      WrapAdd(BI.Current(x).tail + d, e, BI.Current(x).capacity);
    }
  }

  lemma ShapeStays(s: State, a: Aux, step: Step) returns (a': Aux)
    requires Good(s, a) && Enabled(s, step) && Proper(step)
    ensures Good(Apply(s, step), a') && BI.Shape(s.ix)
  {
    a' := StepKeeps(s, a, step);
  }

  lemma {:induction false} CallRun(s: State, a: Aux, steps: seq<Step>)
    requires Good(s, a) && Feasible(s, steps) && AllProper(steps) && NoCall(steps)
    requires Counted(s) && !s.producer.PIdle? && Run(s, steps).producer.PIdle?
    ensures Succeeds(s, steps) || Fails(s, steps)
    decreases |steps|
  {
    hide Good, Counted, Hands, Ahead, SameIndexTail, Apply, Enabled, Results, Taken, Given, Log, Result, Published, Succeeds, Fails;
    var s', rest := Apply(s, steps[0]), steps[1..];
    assert steps == [steps[0]] + rest;
    var a' := ShapeStays(s, a, steps[0]);
    if Result(s, steps[0]) == [] {
      MiddleStep(s, steps[0]);
      CallRun(s', a', rest);
      CallStep(s, steps[0], rest);
    } else {
      LastStep(s, steps[0]);
      IdleRun(s', rest);
      CallEnds(s, steps[0], rest);
    }
  }

  lemma CallStep(s: State, step: Step, rest: seq<Step>)
    requires Feasible(s, [step] + rest) && Enabled(s, step) && Feasible(Apply(s, step), rest)
    requires Result(s, step) == [] && Middle(s, Apply(s, step), step)
    requires Succeeds(Apply(s, step), rest) || Fails(Apply(s, step), rest)
    ensures Succeeds(s, [step] + rest) || Fails(s, [step] + rest)
  {
    hide Counted, Hands, Ahead, SameIndexTail, Apply, Takes, Gives, Result, Published, Trying;
    var s', steps := Apply(s, step), [step] + rest;
    assert steps[1..] == rest;
    assert [] + Results(s', rest) == Results(s', rest) && [] + Log(s', rest) == Log(s', rest);
    assert Run(s, steps) == Run(s', rest);
    var gives, takes := Gives(s, step), Takes(s, step);
    if Succeeds(s', rest) {
      Regroup(takes, Hands(s.producer), Taken(s', rest));
    } else {
      Regroup(gives, Hands(s'.producer), Taken(s', rest));
      Regroup(takes, Hands(s.producer), Taken(s', rest));
      assert Given(s, steps) == gives + (Hands(s'.producer) + Taken(s', rest));
      assert Given(s, steps) == Hands(s.producer) + Taken(s, steps);
      TailMoves(s.ix, s'.ix, Run(s', rest).ix, Ahead(s'.producer) - Ahead(s.producer), -Ahead(s'.producer));
    }
  }

  lemma Regroup(x: multiset<Block>, y: multiset<Block>, z: multiset<Block>)
    ensures x + (y + z) == (y + x) + z && y + (x + z) == (y + x) + z
  {
  }

  lemma CallEnds(s: State, step: Step, rest: seq<Step>)
    requires BI.Shape(s.ix) && Feasible(s, [step] + rest) && Enabled(s, step) && Feasible(Apply(s, step), rest)
    requires Counted(s) && Result(s, step) != [] && NoCall(rest) && Apply(s, step).producer.PIdle?
    ensures Succeeds(s, [step] + rest) || Fails(s, [step] + rest)
  {
    hide Counted, Hands, Ahead, Apply, Takes, Gives, Published, Trying;
    var s', steps := Apply(s, step), [step] + rest;
    assert steps[1..] == rest;
    LastStep(s, step);
    IdleRun(s', rest);
    TailStays(s.ix, s'.ix);
    TailStays(s.ix, Run(s', rest).ix);
    assert Log(s, steps) == Published(s, step) + [] == Published(s, step);
  }

  /** A bulk enqueue that has returned: it returned true exactly if its items were published, and then gave no block
      back and used exactly the blocks it counted; it returned false exactly if nothing was, and then the tail and
      the tail block are as before, every block that it took was given back once, and the tail of the index is where
      it was, unless the index has grown. */
  lemma CallOutcome(s0: State, before: seq<Step>, items: seq<Elem>, call: seq<Step>)
    requires Init(s0) && Feasible(s0, before) && AllProper(before) && Run(s0, before).producer.PIdle?
    requires Feasible(Run(s0, before), [Enqueue(items)] + call) && AllProper(call) && NoCall(call)
    requires Run(Run(s0, before), [Enqueue(items)] + call).producer.PIdle?
    ensures var s, steps := Run(s0, before), [Enqueue(items)] + call;
      var s' := Run(s, steps);
      || (&& Results(s, steps) == [true] && Log(s, steps) == items && s'.tail == s.tail + |items|
          && Given(s, steps) == multiset{} && |Taken(s, steps)| == Needed(s.tail, |items|))
      || (&& Results(s, steps) == [false] && Log(s, steps) == [] && s'.tail == s.tail && s'.tailBlock == s.tailBlock
          && Given(s, steps) == Taken(s, steps)
          && BI.Shape(s.ix) && (|s'.ix.headers| == |s.ix.headers| ==> BI.Current(s'.ix).tail == BI.Current(s.ix).tail))
  {
    hide Good, Results, Taken, Given, Log, Run;
    var s := Run(s0, before);
    var a := Reachable(s0, before);
    CallStarts(s, items, call);
    StartKeeps(s, a, items);
    CallRun(Apply(s, Enqueue(items)), a, call);
    CallFromStart(s, items, call);
  }

  lemma StartKeeps(s: State, a: Aux, items: seq<Elem>)
    requires Good(s, a) && s.producer.PIdle?
    ensures BI.Shape(s.ix) && Good(Apply(s, Enqueue(items)), a)
  {
    KeepEnqueue(s, a, items);
  }

  lemma CallStarts(s: State, items: seq<Elem>, call: seq<Step>)
    requires Feasible(s, [Enqueue(items)] + call)
    ensures Enabled(s, Enqueue(items)) && Feasible(Apply(s, Enqueue(items)), call)
    ensures var s1, steps := Apply(s, Enqueue(items)), [Enqueue(items)] + call;
      && Run(s, steps) == Run(s1, call) && Results(s, steps) == Results(s1, call) && Log(s, steps) == Log(s1, call)
      && Taken(s, steps) == Taken(s1, call) && Given(s, steps) == Given(s1, call)
  {
    var s1, steps := Apply(s, Enqueue(items)), [Enqueue(items)] + call;
    assert steps[1..] == call;
    assert [] + Results(s1, call) == Results(s1, call) && [] + Log(s1, call) == Log(s1, call);
  }

  /** What the end of a call means from its start. */
  lemma CallFromStart(s: State, items: seq<Elem>, call: seq<Step>)
    requires BI.Shape(s.ix) && Enabled(s, Enqueue(items)) && Feasible(Apply(s, Enqueue(items)), call)
    requires Succeeds(Apply(s, Enqueue(items)), call) || Fails(Apply(s, Enqueue(items)), call)
    ensures var s1 := Apply(s, Enqueue(items));
      var s' := Run(s1, call);
      || (&& Results(s1, call) == [true] && Log(s1, call) == items && s'.tail == s.tail + |items|
          && Given(s1, call) == multiset{} && |Taken(s1, call)| == Needed(s.tail, |items|))
      || (&& Results(s1, call) == [false] && Log(s1, call) == [] && s'.tail == s.tail && s'.tailBlock == s.tailBlock
          && Given(s1, call) == Taken(s1, call)
          && BI.Shape(s.ix) && (|s'.ix.headers| == |s.ix.headers| ==> BI.Current(s'.ix).tail == BI.Current(s.ix).tail))
  {
    hide Results, Taken, Given, Log, Run, Needed, Feasible;
    var s1 := Apply(s, Enqueue(items));
    assert multiset{} + Taken(s1, call) == Taken(s1, call);
    assert BI.HeaderOk(s.ix, BI.Last(s.ix));
  }
}
